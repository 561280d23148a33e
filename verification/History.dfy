/** Backward paging over a conversation (`getHistory`, src/feature/chat/store/message.store.ts):
    what a client reads that keeps following `nextCursor`. */
module History {
  import opened Collections
  import opened MessageTable
  import opened RowOrder

  /** `...(cursor ? { createdAt: { lt: cursor } } : {})`: a cursor of 0 counts as absent. */
  predicate InWindow(r: Row, conversationId: string, cursor: Option<int>) {
    r.conversationId == conversationId
    && (cursor.Some? && cursor.value != 0 ==> r.createdAt < cursor.value)
  }

  function Windowed(conversationId: string, cursor: Option<int>): Row -> bool {
    (r: Row) => InWindow(r, conversationId, cursor)
  }

  function NotOlder(t: int): Row -> bool {
    (r: Row) => r.createdAt >= t
  }

  function Reverse(rows: seq<Row>): seq<Row> {
    seq(|rows|, i requires 0 <= i < |rows| => rows[|rows| - 1 - i])
  }

  function Take(rows: seq<Row>, n: nat): seq<Row> {
    if |rows| <= n then rows else rows[..n]
  }

  /** The query: newest first, at most `take` rows. */
  function FindNewest(messages: seq<Row>, conversationId: string, cursor: Option<int>, take: nat): seq<Row> {
    Take(Reverse(Sort(Filter(messages, Windowed(conversationId, cursor)))), take)
  }

  datatype Page = Page(rows: seq<Row>, nextCursor: Option<int>, hasMore: bool)

  /** The page before it is hydrated: one row too many tells whether there is more. */
  function HistoryPage(messages: seq<Row>, conversationId: string, cursor: Option<int>, limit: nat): Page {
    var rows := FindNewest(messages, conversationId, cursor, limit + 1);
    var hasMore := |rows| > limit;
    var page := Reverse(if hasMore then rows[..limit] else rows);
    Page(page, if hasMore && |page| > 0 then Some(page[0].createdAt) else None, hasMore)
  }

  // ---------------------------------------------------------------- one page

  /** All that a cursor leaves to read, oldest first. */
  function Window(messages: seq<Row>, conversationId: string, cursor: Option<int>): seq<Row> {
    Sort(Filter(messages, Windowed(conversationId, cursor)))
  }

  /** The window holds exactly the conversation's rows, or with a cursor other than 0 those older than
      it; by time, and rows of one time by id; with unique ids each once. */
  lemma WindowExactly(messages: seq<Row>, conversationId: string, cursor: Option<int>)
    ensures var w := Window(messages, conversationId, cursor);
            && (forall r :: r in w <==>
                  && r in messages && r.conversationId == conversationId
                  && (cursor.None? || cursor.value == 0 || r.createdAt < cursor.value))
            && (forall i, j :: 0 <= i < j < |w| ==>
                  w[i].createdAt < w[j].createdAt || (w[i].createdAt == w[j].createdAt && StringLeq(w[i].id, w[j].id)))
            && (LinksOk(messages) ==> forall r :: multiset(w)[r] <= 1)
  {
    var w, found := Window(messages, conversationId, cursor), Filter(messages, Windowed(conversationId, cursor));
    FilterMembers(messages, Windowed(conversationId, cursor));
    SortMembers(found);
    SameMembers(w, found);
    SortIsSorted(found);
    SortedMeans(w);
    if LinksOk(messages) {
      forall r { WindowListsOnce(messages, conversationId, cursor, r); }
    }
  }

  /** A page is the newest part of its window. */
  lemma PageIsSuffix(messages: seq<Row>, conversationId: string, cursor: Option<int>, limit: nat)
    ensures var w, p := Window(messages, conversationId, cursor), HistoryPage(messages, conversationId, cursor, limit);
            && (p.hasMore <==> |w| > limit)
            && p.rows == (if |w| > limit then w[|w| - limit..] else w)
            && (p.nextCursor.Some? <==> |w| > limit > 0)
            && (p.nextCursor.Some? ==> p.nextCursor.value == p.rows[0].createdAt)
  {
    var w := Window(messages, conversationId, cursor);
    var rows := FindNewest(messages, conversationId, cursor, limit + 1);
    if |w| > limit {
      assert rows[..limit] == Reverse(w)[..limit];
      assert Reverse(rows[..limit]) == w[|w| - limit..];
    } else {
      assert Reverse(Reverse(w)) == w;
    }
  }

  /** What lies between a page and the next window: rows as old as the page's oldest row. */
  function Gap(messages: seq<Row>, conversationId: string, cursor: Option<int>, limit: nat): seq<Row> {
    var w, p := Window(messages, conversationId, cursor), HistoryPage(messages, conversationId, cursor, limit);
    if p.nextCursor.None? || |p.rows| > |w| then []
    else Filter(w[..|w| - |p.rows|], NotOlder(p.nextCursor.value))
  }

  lemma GapIsMiddle(messages: seq<Row>, conversationId: string, cursor: Option<int>, limit: nat)
    ensures var w, p := Window(messages, conversationId, cursor), HistoryPage(messages, conversationId, cursor, limit);
            Gap(messages, conversationId, cursor, limit) ==
            if p.nextCursor.None? || |w| < limit then []
            else Filter(w[..|w| - limit], NotOlder(p.nextCursor.value))
  {
    PageSize(messages, conversationId, cursor, limit);
  }

  lemma PageSize(messages: seq<Row>, conversationId: string, cursor: Option<int>, limit: nat)
    ensures var w, p := Window(messages, conversationId, cursor), HistoryPage(messages, conversationId, cursor, limit);
            p.nextCursor.Some? ==> |w| > limit && |p.rows| == limit
  {
    PageIsSuffix(messages, conversationId, cursor, limit);
  }

  /** One step: the next window, the gap and the page make up the window. */
  lemma WindowSplits(messages: seq<Row>, conversationId: string, cursor: Option<int>, limit: nat)
    requires limit >= 1
    ensures var p := HistoryPage(messages, conversationId, cursor, limit);
            var w, gap := Window(messages, conversationId, cursor), Gap(messages, conversationId, cursor, limit);
            && (p.nextCursor.None? ==> w == p.rows && gap == [])
            && (p.nextCursor.Some? && p.nextCursor.value != 0 ==>
                  && w == Window(messages, conversationId, p.nextCursor) + gap + p.rows
                  && |p.rows| == limit
                  && (cursor.Some? && cursor.value != 0 ==> p.nextCursor.value < cursor.value)
                  && forall r :: r in gap ==> r.createdAt == p.nextCursor.value)
  {
    PageIsSuffix(messages, conversationId, cursor, limit);
    GapIsMiddle(messages, conversationId, cursor, limit);
    var p := HistoryPage(messages, conversationId, cursor, limit);
    if p.nextCursor.Some? && p.nextCursor.value != 0 {
      OldestOfPage(messages, conversationId, cursor, limit);
      NextWindow(messages, conversationId, cursor, p.nextCursor.value);
      WindowIsCut(messages, conversationId, cursor, p.nextCursor.value, limit);
    }
  }

  lemma WindowIsCut(messages: seq<Row>, conversationId: string, cursor: Option<int>, t: int, limit: nat)
    requires var w := Window(messages, conversationId, cursor);
             1 <= limit <= |w| && w[|w| - limit].createdAt == t
    ensures var w := Window(messages, conversationId, cursor);
            var gap := Filter(w[..|w| - limit], NotOlder(t));
            && w == Filter(w, Older(t)) + gap + w[|w| - limit..]
            && forall r :: r in gap ==> r.createdAt == t
  {
    SortIsSorted(Filter(messages, Windowed(conversationId, cursor)));
    var w := Window(messages, conversationId, cursor);
    SortedSplits(w, t, |w| - limit);
  }

  /** A sorted list, cut before position `m`: what is older than `w[m]`, the tied rows, the rest. */
  lemma SortedSplits(w: seq<Row>, t: int, m: nat)
    requires Sorted(w) && m < |w| && w[m].createdAt == t
    ensures w == Filter(w, Older(t)) + Filter(w[..m], NotOlder(t)) + w[m..]
    ensures forall r :: r in Filter(w[..m], NotOlder(t)) ==> r.createdAt == t
  {
    OlderIsPrefix(w, t);
    var older := Filter(w, Older(t));
    var n := |older|;
    assert older == w[..n] && n <= m;
    MiddleIsTied(w, t, n, m);
    CutTwice(w, n, m);
  }

  lemma CutTwice(w: seq<Row>, n: nat, m: nat)
    requires n <= m <= |w|
    ensures w == w[..n] + w[n..m] + w[m..]
  {}

  lemma OldestOfPage(messages: seq<Row>, conversationId: string, cursor: Option<int>, limit: nat)
    requires HistoryPage(messages, conversationId, cursor, limit).nextCursor.Some?
    ensures var t := HistoryPage(messages, conversationId, cursor, limit).nextCursor.value;
            cursor.Some? && cursor.value != 0 ==> t < cursor.value
  {
    PageIsSuffix(messages, conversationId, cursor, limit);
    var keep := Windowed(conversationId, cursor);
    var w := Window(messages, conversationId, cursor);
    SortMembers(Filter(messages, keep));
    SameMembers(w, Filter(messages, keep));
    FilterMembers(messages, keep);
    assert w[|w| - limit] in w;
  }

  /** Narrowing the window is selecting from it. */
  lemma NextWindow(messages: seq<Row>, conversationId: string, cursor: Option<int>, t: int)
    requires t != 0 && (cursor.Some? && cursor.value != 0 ==> t < cursor.value)
    ensures Window(messages, conversationId, Some(t)) ==
            Filter(Window(messages, conversationId, cursor), Older(t))
  {
    var keep := Windowed(conversationId, cursor);
    var keep' := Windowed(conversationId, Some(t));
    var older := Older(t);
    SortFilter(Filter(messages, keep), older);
    FilterTwice(messages, keep, older, keep');
  }

  lemma MiddleIsTied(w: seq<Row>, t: int, n: nat, m: nat)
    requires Sorted(w) && n <= m < |w| && w[m].createdAt == t
    requires forall i :: 0 <= i < n ==> w[i].createdAt < t
    requires forall i :: n <= i < |w| ==> w[i].createdAt >= t
    ensures Filter(w[..m], NotOlder(t)) == w[n..m]
    ensures forall r :: r in w[n..m] ==> r.createdAt == t
  {
    var p := NotOlder(t);
    assert w[..m] == w[..n] + w[n..m];
    FilterConcat(w[..n], w[n..m], p);
    FilterNone(w[..n], p);
    FilterAll(w[n..m], p);
    forall r | r in w[n..m] ensures r.createdAt == t {
      var i :| 0 <= i < m - n && w[n..m][i] == r;
      assert Before(w[n + i], w[m]);
    }
  }

  // ---------------------------------------------------------------- following the cursors

  /** A page with the gap that its cursor skips. */
  datatype Chunk = Chunk(gap: seq<Row>, page: seq<Row>)

  /** One `chat:history` request: the table it meets and the cursor it carries. */
  datatype Request = Request(messages: seq<Row>, cursor: Option<int>)

  /** Between two requests, rows may be appended: any in other conversations, but in this one only
      with a time at or after the current cursor. */
  ghost predicate GrowsAbove(before: seq<Row>, after: seq<Row>, conversationId: string, t: int) {
    before <= after &&
    forall r :: r in after[|before|..] && r.conversationId == conversationId ==> r.createdAt >= t
  }

  /** No row of the conversation is stamped with the epoch, which a cursor cannot name. */
  ghost predicate NonZero(messages: seq<Row>, conversationId: string) {
    forall r :: r in messages && r.conversationId == conversationId ==> r.createdAt != 0
  }

  /** The next request follows `nextCursor`, on a table that has only grown above it. */
  ghost predicate Follows(a: Request, b: Request, conversationId: string, limit: nat) {
    var p := HistoryPage(a.messages, conversationId, a.cursor, limit);
    && p.nextCursor.Some? && b.cursor == p.nextCursor
    && GrowsAbove(a.messages, b.messages, conversationId, p.nextCursor.value)
  }

  /** A client that keeps asking for the next older page. */
  ghost predicate IsReading(requests: seq<Request>, conversationId: string, limit: nat) {
    && requests != []
    && (forall k :: 0 <= k < |requests| ==> NonZero(requests[k].messages, conversationId))
    && (forall k :: 0 <= k < |requests| - 1 ==> Follows(requests[k], requests[k + 1], conversationId, limit))
  }

  /** Its last page came with a null cursor. */
  ghost predicate Ended(requests: seq<Request>, conversationId: string, limit: nat)
    requires requests != []
  {
    var last := requests[|requests| - 1];
    HistoryPage(last.messages, conversationId, last.cursor, limit).nextCursor.None?
  }

  function ChunkOf(q: Request, conversationId: string, limit: nat): Chunk {
    Chunk(Gap(q.messages, conversationId, q.cursor, limit),
          HistoryPage(q.messages, conversationId, q.cursor, limit).rows)
  }

  /** The pages in the order they arrive, newest first. */
  function ChunksOf(requests: seq<Request>, conversationId: string, limit: nat): seq<Chunk> {
    seq(|requests|, k requires 0 <= k < |requests| => ChunkOf(requests[k], conversationId, limit))
  }

  /** What the client has then: each older page goes before those already read. */
  function ReadOf(chunks: seq<Chunk>): seq<Row> {
    if chunks == [] then [] else ReadOf(chunks[1..]) + chunks[0].page
  }

  function AllOf(chunks: seq<Chunk>): seq<Row> {
    if chunks == [] then [] else AllOf(chunks[1..]) + chunks[0].gap + chunks[0].page
  }

  function SkippedOf(chunks: seq<Chunk>): seq<Row> {
    if chunks == [] then [] else SkippedOf(chunks[1..]) + chunks[0].gap
  }

  // ---------------------------------------------------------------- chunks tile a window

  ghost predicate SplitsInto(w: seq<Row>, w': seq<Row>, chunk: Chunk) {
    && w == w' + chunk.gap + chunk.page && chunk.page != []
    && forall r :: r in chunk.gap ==> r.createdAt == chunk.page[0].createdAt
  }

  /** Each window is the next one, a gap and a page; the last is a page. */
  ghost predicate Tiles(windows: seq<seq<Row>>, chunks: seq<Chunk>) {
    && |windows| == |chunks| >= 1
    && (forall k :: 0 <= k < |chunks| - 1 ==> SplitsInto(windows[k], windows[k + 1], chunks[k]))
    && chunks[|chunks| - 1] == Chunk([], windows[|chunks| - 1])
  }

  lemma TilesTail(windows: seq<seq<Row>>, chunks: seq<Chunk>)
    requires Tiles(windows, chunks) && |chunks| > 1
    ensures Tiles(windows[1..], chunks[1..])
  {
    forall k | 0 <= k < |chunks[1..]| - 1 ensures SplitsInto(windows[1..][k], windows[1..][k + 1], chunks[1..][k]) {
      assert SplitsInto(windows[k + 1], windows[k + 1 + 1], chunks[k + 1]);
    }
  }

  lemma {:induction false} TilesMakeWindow(windows: seq<seq<Row>>, chunks: seq<Chunk>)
    requires Tiles(windows, chunks)
    ensures AllOf(chunks) == windows[0]
    decreases |chunks|
  {
    if |chunks| > 1 {
      TilesTail(windows, chunks);
      TilesMakeWindow(windows[1..], chunks[1..]);
      assert SplitsInto(windows[0], windows[0 + 1], chunks[0]);
    } else {
      assert chunks[1..] == [];
    }
  }

  ghost predicate DistinctTimes(rows: seq<Row>) {
    forall i, j :: 0 <= i < j < |rows| ==> rows[i].createdAt != rows[j].createdAt
  }

  lemma DistinctTimesLeaveNoGap(w: seq<Row>, w': seq<Row>, chunk: Chunk)
    requires SplitsInto(w, w', chunk) && DistinctTimes(w)
    ensures chunk.gap == [] && DistinctTimes(w')
  {
    var n, m := |w'|, |w'| + |chunk.gap|;
    assert w[m] == chunk.page[0];
    assert w[n] == (chunk.gap + chunk.page)[0];
    forall i, j | 0 <= i < j < |w'| ensures w'[i].createdAt != w'[j].createdAt {
      assert w[i] == w'[i] && w[j] == w'[j];
    }
  }

  lemma {:induction false} DistinctTilesHaveNoGaps(windows: seq<seq<Row>>, chunks: seq<Chunk>)
    requires Tiles(windows, chunks) && DistinctTimes(windows[0])
    ensures ReadOf(chunks) == windows[0]
    decreases |chunks|
  {
    if |chunks| > 1 {
      assert SplitsInto(windows[0], windows[0 + 1], chunks[0]);
      DistinctTimesLeaveNoGap(windows[0], windows[1], chunks[0]);
      TilesTail(windows, chunks);
      DistinctTilesHaveNoGaps(windows[1..], chunks[1..]);
    } else {
      assert chunks[1..] == [];
    }
  }

  // ---------------------------------------------------------------- requests make tiles

  lemma GrowthKeepsWindow(before: seq<Row>, after: seq<Row>, conversationId: string, t: int)
    requires GrowsAbove(before, after, conversationId, t) && t != 0
    ensures Window(after, conversationId, Some(t)) == Window(before, conversationId, Some(t))
  {
    var keep := Windowed(conversationId, Some(t));
    var added := after[|before|..];
    assert after == before + added;
    FilterConcat(before, added, keep);
    FilterNone(added, keep);
    assert Filter(before, keep) + [] == Filter(before, keep);
  }

  lemma WindowRowsAreRows(messages: seq<Row>, conversationId: string, cursor: Option<int>)
    ensures forall r :: r in Window(messages, conversationId, cursor) ==>
              r in messages && InWindow(r, conversationId, cursor)
  {
    var keep := Windowed(conversationId, cursor);
    SortMembers(Filter(messages, keep));
    SameMembers(Window(messages, conversationId, cursor), Filter(messages, keep));
    FilterMembers(messages, keep);
  }

  lemma PageRowsAreRows(messages: seq<Row>, conversationId: string, cursor: Option<int>, limit: nat)
    ensures forall r :: r in HistoryPage(messages, conversationId, cursor, limit).rows ==>
              r in messages && InWindow(r, conversationId, cursor)
  {
    WindowRowsAreRows(messages, conversationId, cursor);
    PageIsSuffix(messages, conversationId, cursor, limit);
  }

  lemma NextCursorIsNonZero(messages: seq<Row>, conversationId: string, cursor: Option<int>, limit: nat)
    requires limit >= 1 && NonZero(messages, conversationId)
    ensures var p := HistoryPage(messages, conversationId, cursor, limit);
            p.nextCursor.Some? ==> p.nextCursor.value != 0
  {
    PageIsSuffix(messages, conversationId, cursor, limit);
    PageRowsAreRows(messages, conversationId, cursor, limit);
    var p := HistoryPage(messages, conversationId, cursor, limit);
    if p.nextCursor.Some? {
      assert p.rows[0] in p.rows;
    }
  }

  /** Following a cursor: the next window, the gap and the page make up this one, and the next
      window is smaller by a page or more. The cursor itself strictly decreases. */
  lemma FollowingSplits(a: Request, b: Request, conversationId: string, limit: nat)
    requires limit >= 1 && NonZero(a.messages, conversationId) && Follows(a, b, conversationId, limit)
    ensures SplitsInto(Window(a.messages, conversationId, a.cursor), Window(b.messages, conversationId, b.cursor),
                       ChunkOf(a, conversationId, limit))
    ensures |ChunkOf(a, conversationId, limit).page| == limit
    ensures b.cursor.Some? && (a.cursor.Some? && a.cursor.value != 0 ==> b.cursor.value < a.cursor.value)
  {
    WindowSplits(a.messages, conversationId, a.cursor, limit);
    NextCursorIsNonZero(a.messages, conversationId, a.cursor, limit);
    PageIsSuffix(a.messages, conversationId, a.cursor, limit);
    GrowthKeepsWindow(a.messages, b.messages, conversationId, b.cursor.value);
  }

  function WindowsOf(requests: seq<Request>, conversationId: string): seq<seq<Row>> {
    seq(|requests|, k requires 0 <= k < |requests| => Window(requests[k].messages, conversationId, requests[k].cursor))
  }

  lemma ReadingTiles(requests: seq<Request>, conversationId: string, limit: nat)
    requires limit >= 1 && IsReading(requests, conversationId, limit) && Ended(requests, conversationId, limit)
    ensures Tiles(WindowsOf(requests, conversationId), ChunksOf(requests, conversationId, limit))
  {
    var windows, chunks := WindowsOf(requests, conversationId), ChunksOf(requests, conversationId, limit);
    forall k | 0 <= k < |chunks| - 1 ensures SplitsInto(windows[k], windows[k + 1], chunks[k]) {
      FollowingSplits(requests[k], requests[k + 1], conversationId, limit);
    }
    var last := requests[|requests| - 1];
    WindowSplits(last.messages, conversationId, last.cursor, limit);
  }

  // ---------------------------------------------------------------- main theorems

  /** `n` steps down by at least `limit`, the last one from above `limit`, start above `n * limit`. */
  lemma {:induction false} StepsDown(sizes: seq<nat>, limit: nat)
    requires sizes != [] && sizes[|sizes| - 1] > limit
    requires forall k :: 0 <= k < |sizes| - 1 ==> sizes[k + 1] + limit <= sizes[k]
    ensures |sizes| * limit < sizes[0]
  {
    if |sizes| > 1 {
      assert forall k :: 0 <= k < |sizes[1..]| ==> sizes[1..][k] == sizes[k + 1];
      StepsDown(sizes[1..], limit);
      assert sizes[0 + 1] + limit <= sizes[0];
      assert |sizes| * limit == |sizes[1..]| * limit + limit;
    }
  }

  function WindowSize(q: Request, conversationId: string): nat {
    |Window(q.messages, conversationId, q.cursor)|
  }

  lemma FollowingShrinks(a: Request, b: Request, conversationId: string, limit: nat)
    requires limit >= 1 && NonZero(a.messages, conversationId) && Follows(a, b, conversationId, limit)
    ensures WindowSize(b, conversationId) + limit <= WindowSize(a, conversationId)
  {
    FollowingSplits(a, b, conversationId, limit);
  }

  lemma MoreThanAPage(q: Request, conversationId: string, limit: nat)
    requires HistoryPage(q.messages, conversationId, q.cursor, limit).nextCursor.Some?
    ensures WindowSize(q, conversationId) > limit
  {
    PageIsSuffix(q.messages, conversationId, q.cursor, limit);
  }

  function SizesOf(requests: seq<Request>, conversationId: string): seq<nat> {
    seq(|requests|, k requires 0 <= k < |requests| => WindowSize(requests[k], conversationId))
  }

  lemma SizesShrink(requests: seq<Request>, conversationId: string, limit: nat)
    requires limit >= 1 && IsReading(requests, conversationId, limit)
    ensures var sizes := SizesOf(requests, conversationId);
            forall k :: 0 <= k < |sizes| - 1 ==> sizes[k + 1] + limit <= sizes[k]
  {
    forall k | 0 <= k < |requests| - 1
      ensures WindowSize(requests[k + 1], conversationId) + limit <= WindowSize(requests[k], conversationId)
    {
      FollowingShrinks(requests[k], requests[k + 1], conversationId, limit);
    }
  }

  /** Termination: while the cursor is not null, every page so far was full and there is more to
      read, so a window of `n` rows is read in at most `n / limit` pages, rounded up. */
  lemma ReadingIsBounded(requests: seq<Request>, conversationId: string, limit: nat)
    requires limit >= 1 && IsReading(requests, conversationId, limit) && !Ended(requests, conversationId, limit)
    ensures |requests| * limit < WindowSize(requests[0], conversationId)
  {
    MoreThanAPage(requests[|requests| - 1], conversationId, limit);
    SizesShrink(requests, conversationId, limit);
    StepsDown(SizesOf(requests, conversationId), limit);
  }

  /** With distinct times nothing is skipped or repeated: the pages, each prepended to those read
      before, are the whole history in order, whatever newer rows arrived meanwhile. */
  lemma PagesAreTheHistory(requests: seq<Request>, conversationId: string, limit: nat)
    requires limit >= 1 && IsReading(requests, conversationId, limit) && Ended(requests, conversationId, limit)
    requires DistinctTimes(Window(requests[0].messages, conversationId, requests[0].cursor))
    ensures ReadOf(ChunksOf(requests, conversationId, limit)) ==
            Window(requests[0].messages, conversationId, requests[0].cursor)
  {
    ReadingTiles(requests, conversationId, limit);
    DistinctTilesHaveNoGaps(WindowsOf(requests, conversationId), ChunksOf(requests, conversationId, limit));
  }

  lemma GapsTieWithPages(windows: seq<seq<Row>>, chunks: seq<Chunk>, k: nat, r: Row)
    requires Tiles(windows, chunks) && k < |chunks| && r in chunks[k].gap
    ensures chunks[k].page != [] && r.createdAt == chunks[k].page[0].createdAt
  {
    assert k < |chunks| - 1 && SplitsInto(windows[k], windows[k + 1], chunks[k]);
  }

  /** In any case the pages, with the gaps put back, are the history in order; and each gap holds
      rows exactly as old as the oldest row of its page. */
  lemma PagesAndGapsAreTheHistory(requests: seq<Request>, conversationId: string, limit: nat)
    requires limit >= 1 && IsReading(requests, conversationId, limit) && Ended(requests, conversationId, limit)
    ensures AllOf(ChunksOf(requests, conversationId, limit)) ==
            Window(requests[0].messages, conversationId, requests[0].cursor)
    ensures forall k, r :: 0 <= k < |requests| && r in ChunksOf(requests, conversationId, limit)[k].gap ==>
              var page := ChunksOf(requests, conversationId, limit)[k].page;
              page != [] && r.createdAt == page[0].createdAt
  {
    ReadingTiles(requests, conversationId, limit);
    var windows, chunks := WindowsOf(requests, conversationId), ChunksOf(requests, conversationId, limit);
    TilesMakeWindow(windows, chunks);
    forall k, r | 0 <= k < |requests| && r in chunks[k].gap
      ensures chunks[k].page != [] && r.createdAt == chunks[k].page[0].createdAt
    {
      GapsTieWithPages(windows, chunks, k, r);
    }
  }

  // ---------------------------------------------------------------- equal times

  lemma {:induction false} ReadOrSkipped(chunks: seq<Chunk>)
    ensures multiset(AllOf(chunks)) == multiset(ReadOf(chunks)) + multiset(SkippedOf(chunks))
  {
    if chunks != [] {
      ReadOrSkipped(chunks[1..]);
    }
  }

  lemma {:induction false} SkippedIsInAGap(chunks: seq<Chunk>, r: Row)
    ensures r in SkippedOf(chunks) <==> exists k :: 0 <= k < |chunks| && r in chunks[k].gap
  {
    if chunks != [] {
      SkippedIsInAGap(chunks[1..], r);
      assert forall k :: 0 <= k < |chunks| - 1 ==> chunks[1..][k] == chunks[k + 1];
      if exists k :: 0 <= k < |chunks| && r in chunks[k].gap {
        var k :| 0 <= k < |chunks| && r in chunks[k].gap;
        assert k > 0 ==> r in chunks[1..][k - 1].gap;
      }
    }
  }

  lemma {:induction false} FilterCounts(rows: seq<Row>, keep: Row -> bool)
    ensures multiset(Filter(rows, keep)) <= multiset(rows)
  {
    if rows != [] {
      var front, last := rows[..|rows| - 1], rows[|rows| - 1];
      assert rows == front + [last];
      FilterAppend(front, last, keep);
      FilterCounts(front, keep);
    }
  }

  lemma {:induction false} RowsAreListedOnce(messages: seq<Row>, r: Row)
    requires LinksOk(messages)
    ensures multiset(messages)[r] <= 1
  {
    if messages != [] {
      var front, last := messages[..|messages| - 1], messages[|messages| - 1];
      assert messages == front + [last];
      RowsAreListedOnce(front, r);
      if r == last {
        assert r !in front;
      }
    }
  }

  lemma WindowListsOnce(messages: seq<Row>, conversationId: string, cursor: Option<int>, r: Row)
    requires LinksOk(messages)
    ensures multiset(Window(messages, conversationId, cursor))[r] <= 1
  {
    SortMembers(Filter(messages, Windowed(conversationId, cursor)));
    FilterCounts(messages, Windowed(conversationId, cursor));
    RowsAreListedOnce(messages, r);
  }

  lemma EitherOr(w: seq<Row>, read: seq<Row>, skipped: seq<Row>, r: Row)
    requires multiset(w) == multiset(read) + multiset(skipped) && multiset(w)[r] <= 1 && r in w
    ensures multiset(read)[r] <= 1 && (r in read <==> r !in skipped)
  {
    assert r in read <==> multiset(read)[r] > 0;
    assert r in skipped <==> multiset(skipped)[r] > 0;
    assert multiset(w)[r] > 0;
  }

  /** The row lies before the page of `limit` rows, and is as old as the oldest row on it. */
  predicate CutOff(w: seq<Row>, limit: nat, r: Row) {
    |w| > limit > 0 && r in w[..|w| - limit] && r.createdAt == w[|w| - limit].createdAt
  }

  /** The last row before the page is older than the first row on it. */
  predicate CutsClean(w: seq<Row>, limit: nat) {
    |w| > limit > 0 ==> w[|w| - limit - 1].createdAt < w[|w| - limit].createdAt
  }

  lemma TiedPart(w: seq<Row>, m: nat, r: Row)
    requires Sorted(w) && m < |w|
    ensures var t := w[m].createdAt; r in Filter(w[..m], NotOlder(t)) <==> r in w[..m] && r.createdAt == t
  {
    var t := w[m].createdAt;
    FilterMembers(w[..m], NotOlder(t));
    if r in w[..m] {
      var i :| 0 <= i < m && w[i] == r;
      assert Before(w[i], w[m]);
    }
  }

  lemma CleanPart(w: seq<Row>, m: nat)
    requires Sorted(w) && 0 < m < |w|
    ensures Filter(w[..m], NotOlder(w[m].createdAt)) == [] <==> w[m - 1].createdAt < w[m].createdAt
  {
    var t, front := w[m].createdAt, w[..m];
    assert front[m - 1] == w[m - 1] && front[m - 1] in front;
    FilterMembers(front, NotOlder(t));
    if w[m - 1].createdAt < t {
      forall r | r in front ensures !NotOlder(t)(r) {
        var i :| 0 <= i < m && w[i] == r;
        assert i < m - 1 ==> Before(w[i], w[m - 1]);
      }
      FilterNone(front, NotOlder(t));
    }
  }

  lemma GapOfWindow(messages: seq<Row>, conversationId: string, cursor: Option<int>, limit: nat)
    requires limit >= 1
    ensures var w := Window(messages, conversationId, cursor);
            && Sorted(w)
            && Gap(messages, conversationId, cursor, limit) ==
               if |w| > limit then Filter(w[..|w| - limit], NotOlder(w[|w| - limit].createdAt)) else []
  {
    PageIsSuffix(messages, conversationId, cursor, limit);
    GapIsMiddle(messages, conversationId, cursor, limit);
    SortIsSorted(Filter(messages, Windowed(conversationId, cursor)));
  }

  /** What the next cursor skips, in terms of the sorted window alone. */
  lemma GapExactly(messages: seq<Row>, conversationId: string, cursor: Option<int>, limit: nat, r: Row)
    requires limit >= 1
    ensures var w, gap := Window(messages, conversationId, cursor), Gap(messages, conversationId, cursor, limit);
            r in gap <==> CutOff(w, limit, r)
  {
    var w := Window(messages, conversationId, cursor);
    GapOfWindow(messages, conversationId, cursor, limit);
    if |w| > limit {
      TiedPart(w, |w| - limit, r);
    }
  }

  lemma GapIsEmptyExactly(messages: seq<Row>, conversationId: string, cursor: Option<int>, limit: nat)
    requires limit >= 1
    ensures var w, gap := Window(messages, conversationId, cursor), Gap(messages, conversationId, cursor, limit);
            gap == [] <==> CutsClean(w, limit)
  {
    GapOfWindow(messages, conversationId, cursor, limit);
    CleanGap(Window(messages, conversationId, cursor), Gap(messages, conversationId, cursor, limit), limit);
  }

  lemma CleanGap(w: seq<Row>, gap: seq<Row>, limit: nat)
    requires limit >= 1 && Sorted(w)
    requires gap == if |w| > limit then Filter(w[..|w| - limit], NotOlder(w[|w| - limit].createdAt)) else []
    ensures gap == [] <==> CutsClean(w, limit)
  {
    if |w| > limit {
      CleanPart(w, |w| - limit);
    }
  }

  /** Nothing is read twice, and a row is missed exactly when, in the sorted window of some request,
      it lies before the newest `limit` rows and is as old as the oldest of them. */
  lemma MissedRowsExactly(requests: seq<Request>, conversationId: string, limit: nat, r: Row)
    requires limit >= 1 && IsReading(requests, conversationId, limit) && Ended(requests, conversationId, limit)
    requires LinksOk(requests[0].messages) && r in Window(requests[0].messages, conversationId, requests[0].cursor)
    ensures var read, windows := ReadOf(ChunksOf(requests, conversationId, limit)), WindowsOf(requests, conversationId);
            && multiset(read)[r] <= 1
            && (r !in read <==> exists k :: 0 <= k < |windows| && CutOff(windows[k], limit, r))
  {
    var chunks, windows := ChunksOf(requests, conversationId, limit), WindowsOf(requests, conversationId);
    PagesAndGapsAreTheHistory(requests, conversationId, limit);
    ReadOrSkipped(chunks);
    SkippedIsInAGap(chunks, r);
    WindowListsOnce(requests[0].messages, conversationId, requests[0].cursor, r);
    EitherOr(AllOf(chunks), ReadOf(chunks), SkippedOf(chunks), r);
    forall k | 0 <= k < |requests| ensures r in chunks[k].gap <==> CutOff(windows[k], limit, r) {
      GapExactly(requests[k].messages, conversationId, requests[k].cursor, limit, r);
    }
  }

  lemma {:induction false} NoGapsNoneSkipped(chunks: seq<Chunk>)
    ensures |AllOf(chunks)| == |ReadOf(chunks)| + |SkippedOf(chunks)|
    ensures SkippedOf(chunks) == [] <==> forall k :: 0 <= k < |chunks| ==> chunks[k].gap == []
    ensures SkippedOf(chunks) == [] ==> ReadOf(chunks) == AllOf(chunks)
  {
    if chunks != [] {
      var rest := chunks[1..];
      NoGapsNoneSkipped(rest);
      assert forall k :: 0 <= k < |rest| ==> rest[k] == chunks[k + 1];
      if forall k :: 0 <= k < |rest| ==> rest[k].gap == [] {
        assert forall k :: 0 < k < |chunks| ==> chunks[k].gap == rest[k - 1].gap == [];
      }
    }
  }

  /** A client reads the whole history, in order, exactly when in the sorted window of every request
      the newest `limit` rows are newer than the row before them. */
  lemma CompleteExactly(requests: seq<Request>, conversationId: string, limit: nat)
    requires limit >= 1 && IsReading(requests, conversationId, limit) && Ended(requests, conversationId, limit)
    ensures var windows := WindowsOf(requests, conversationId);
            ReadOf(ChunksOf(requests, conversationId, limit)) == windows[0] <==>
            forall k :: 0 <= k < |windows| ==> CutsClean(windows[k], limit)
  {
    var chunks, windows := ChunksOf(requests, conversationId, limit), WindowsOf(requests, conversationId);
    PagesAndGapsAreTheHistory(requests, conversationId, limit);
    NoGapsNoneSkipped(chunks);
    forall k | 0 <= k < |requests| ensures chunks[k].gap == [] <==> CutsClean(windows[k], limit) {
      var q := requests[k];
      GapIsEmptyExactly(q.messages, conversationId, q.cursor, limit);
    }
  }

  lemma WholeWindow(messages: seq<Row>, conversationId: string)
    requires forall r :: r in messages ==> r.conversationId == conversationId
    ensures var w := Window(messages, conversationId, None); |w| == |messages| && forall r :: r in w <==> r in messages
  {
    FilterAll(messages, Windowed(conversationId, None));
    SortMembers(messages);
    SameMembers(Sort(messages), messages);
  }

  lemma EmptyWindow(messages: seq<Row>, conversationId: string, t: int)
    requires t != 0 && forall r :: r in messages ==> r.createdAt >= t
    ensures Window(messages, conversationId, Some(t)) == []
  {
    FilterNone(messages, Windowed(conversationId, Some(t)));
  }

  lemma TiedWindows(a: Row, b: Row)
    requires a.conversationId == b.conversationId && a.createdAt == b.createdAt != 0
    ensures var w := Window([a, b], a.conversationId, None); |w| == 2 && forall r :: r in w <==> r in [a, b]
    ensures Window([a, b], a.conversationId, Some(a.createdAt)) == []
  {
    WholeWindow([a, b], a.conversationId);
    EmptyWindow([a, b], a.conversationId, a.createdAt);
  }

  lemma TiedPages(a: Row, b: Row)
    requires a.conversationId == b.conversationId && a.createdAt == b.createdAt != 0
    ensures HistoryPage([a, b], a.conversationId, None, 1).nextCursor == Some(a.createdAt)
    ensures HistoryPage([a, b], a.conversationId, Some(a.createdAt), 1).nextCursor == None
  {
    TiedWindows(a, b);
    PageIsSuffix([a, b], a.conversationId, None, 1);
    PageIsSuffix([a, b], a.conversationId, Some(a.createdAt), 1);
    var w := Window([a, b], a.conversationId, None);
    assert w[1] in w;
  }

  /** Rows are lost: of any two messages with one time, a client that reads one message a page
      misses one. */
  lemma TiedRowIsMissed(a: Row, b: Row) returns (requests: seq<Request>, missed: Row)
    requires a.conversationId == b.conversationId && a.createdAt == b.createdAt != 0 && LinksOk([a, b])
    ensures IsReading(requests, a.conversationId, 1) && Ended(requests, a.conversationId, 1)
    ensures requests[0] == Request([a, b], None) && missed in [a, b]
    ensures missed !in ReadOf(ChunksOf(requests, a.conversationId, 1))
  {
    var c := a.conversationId;
    requests := [Request([a, b], None), Request([a, b], Some(a.createdAt))];
    TiedPages(a, b);
    assert Follows(requests[0], requests[1], c, 1);
    TiedWindows(a, b);
    var w := WindowsOf(requests, c)[0];
    missed := w[0];
    assert w[0] in w && w[1] in w && w[..1][0] == missed;
    assert CutOff(w, 1, missed);
    MissedRowsExactly(requests, c, 1, missed);
  }

  /** Why epoch stamps are excluded: a cursor of 0 asks for the newest page again. */
  lemma ZeroCursorRestarts(messages: seq<Row>, conversationId: string, limit: nat)
    ensures HistoryPage(messages, conversationId, Some(0), limit) == HistoryPage(messages, conversationId, None, limit)
  {
    FilterAgrees(messages, Windowed(conversationId, Some(0)), Windowed(conversationId, None));
  }
}
