/** `ORDER BY created_at, id`: a total order on rows with distinct ids, and the list in that order. */
module RowOrder {
  import opened Collections
  import opened MessageTable

  /** Text columns compare character by character. */
  predicate StringLeq(a: string, b: string) {
    a == "" || (b != "" && (a[0] < b[0] || (a[0] == b[0] && StringLeq(a[1..], b[1..]))))
  }

  lemma {:induction false} StringLeqTotal(a: string, b: string)
    ensures StringLeq(a, b) || StringLeq(b, a)
    ensures StringLeq(a, b) && StringLeq(b, a) ==> a == b
  {
    if a != "" && b != "" && a[0] == b[0] {
      StringLeqTotal(a[1..], b[1..]);
      assert a == [a[0]] + a[1..] && b == [b[0]] + b[1..];
    }
  }

  lemma {:induction false} StringLeqTransitive(a: string, b: string, c: string)
    requires StringLeq(a, b) && StringLeq(b, c)
    ensures StringLeq(a, c)
  {
    if a != "" && a[0] == b[0] && b[0] == c[0] {
      StringLeqTransitive(a[1..], b[1..], c[1..]);
    }
  }

  /** Equal up to place `k`, and less there. */
  predicate LessAt(a: string, b: string, k: nat) {
    k < |a| && k < |b| && a[..k] == b[..k] && a[k] < b[k]
  }

  lemma LessAtTail(a: string, b: string, k: nat)
    requires a != "" && b != "" && a[0] == b[0]
    ensures LessAt(a, b, k + 1) <==> LessAt(a[1..], b[1..], k)
  {
    if k + 1 < |a| && k + 1 < |b| {
      assert a[..k + 1] == [a[0]] + a[1..][..k] && b[..k + 1] == [b[0]] + b[1..][..k];
    }
  }

  /** The first is a prefix of the second, or is less at the first character where they differ. */
  lemma {:induction false} StringLeqExactly(a: string, b: string)
    ensures StringLeq(a, b) <==> a <= b || exists k: nat :: LessAt(a, b, k)
  {
    if a != "" && b != "" && a[0] == b[0] {
      StringLeqExactly(a[1..], b[1..]);
      forall k: nat ensures LessAt(a, b, k + 1) <==> LessAt(a[1..], b[1..], k) {
        LessAtTail(a, b, k);
      }
      if exists k: nat :: LessAt(a, b, k) {
        var k: nat :| LessAt(a, b, k);
        assert k > 0 && LessAt(a[1..], b[1..], k - 1);
      }
      assert a == [a[0]] + a[1..] && b == [b[0]] + b[1..];
    } else if a != "" && b != "" {
      assert LessAt(a, b, 0) <==> a[0] < b[0];
    }
  }

  predicate Before(r: Row, s: Row) {
    r.createdAt < s.createdAt || (r.createdAt == s.createdAt && StringLeq(r.id, s.id))
  }

  lemma BeforeTotal(r: Row, s: Row)
    ensures Before(r, s) || Before(s, r)
    ensures Before(r, s) && Before(s, r) ==> r.id == s.id
  {
    StringLeqTotal(r.id, s.id);
  }

  lemma BeforeTransitive(r: Row, s: Row, t: Row)
    requires Before(r, s) && Before(s, t)
    ensures Before(r, t)
  {
    if r.createdAt == s.createdAt == t.createdAt {
      StringLeqTransitive(r.id, s.id, t.id);
    }
  }

  predicate Sorted(rows: seq<Row>) {
    forall i, j :: 0 <= i < j < |rows| ==> Before(rows[i], rows[j])
  }

  function InsertRow(sorted: seq<Row>, r: Row): seq<Row> {
    if sorted == [] then [r]
    else
      var n := |sorted| - 1;
      if Before(sorted[n], r) then sorted + [r]
      else InsertRow(sorted[..n], r) + [sorted[n]]
  }

  /** The rows of a query in ascending order. */
  function Sort(rows: seq<Row>): seq<Row> {
    if rows == [] then []
    else InsertRow(Sort(rows[..|rows| - 1]), rows[|rows| - 1])
  }

  lemma {:induction false} InsertMembers(sorted: seq<Row>, r: Row)
    ensures multiset(InsertRow(sorted, r)) == multiset(sorted) + multiset{r}
  {
    if sorted != [] {
      var n := |sorted| - 1;
      assert sorted == sorted[..n] + [sorted[n]];
      if !Before(sorted[n], r) {
        InsertMembers(sorted[..n], r);
      }
    }
  }

  lemma {:induction false} SortMembers(rows: seq<Row>)
    ensures multiset(Sort(rows)) == multiset(rows)
  {
    if rows != [] {
      var n := |rows| - 1;
      assert rows == rows[..n] + [rows[n]];
      SortMembers(rows[..n]);
      InsertMembers(Sort(rows[..n]), rows[n]);
    }
  }

  lemma SameMembers(a: seq<Row>, b: seq<Row>)
    requires multiset(a) == multiset(b)
    ensures |a| == |b| && forall x :: x in a <==> x in b
  {
    assert |multiset(a)| == |multiset(b)|;
    forall x ensures x in a <==> x in b {
      assert x in multiset(a) <==> x in multiset(b);
    }
  }

  lemma {:induction false} InsertKeepsSorted(sorted: seq<Row>, r: Row)
    requires Sorted(sorted)
    ensures Sorted(InsertRow(sorted, r))
  {
    if sorted != [] {
      var n := |sorted| - 1;
      if Before(sorted[n], r) {
        forall i | 0 <= i < n ensures Before(sorted[i], r) {
          BeforeTransitive(sorted[i], sorted[n], r);
        }
      } else {
        InsertKeepsSorted(sorted[..n], r);
        BeforeTotal(sorted[n], r);
        var front := InsertRow(sorted[..n], r);
        InsertMembers(sorted[..n], r);
        assert forall x :: x in multiset(front) ==> x in multiset(sorted[..n]) || x == r;
        forall i | 0 <= i < |front| ensures Before(front[i], sorted[n]) {
          assert front[i] in multiset(front);
          if front[i] != r {
            assert front[i] in sorted[..n];
          }
        }
      }
    }
  }

  lemma {:induction false} SortIsSorted(rows: seq<Row>)
    ensures Sorted(Sort(rows))
  {
    if rows != [] {
      var n := |rows| - 1;
      SortIsSorted(rows[..n]);
      InsertKeepsSorted(Sort(rows[..n]), rows[n]);
    }
  }

  /** Sorted rows stand by time, and rows of one time by id. */
  lemma SortedMeans(rows: seq<Row>)
    requires Sorted(rows)
    ensures forall i, j :: 0 <= i < j < |rows| ==>
              || rows[i].createdAt < rows[j].createdAt
              || (rows[i].createdAt == rows[j].createdAt && StringLeq(rows[i].id, rows[j].id))
  {}

  lemma InsertAtEnd(sorted: seq<Row>, last: Row, r: Row)
    ensures InsertRow(sorted + [last], r) ==
            if Before(last, r) then sorted + [last] + [r] else InsertRow(sorted, r) + [last]
  {
    assert (sorted + [last])[..|sorted|] == sorted;
  }

  lemma SortAtEnd(rows: seq<Row>, r: Row)
    ensures Sort(rows + [r]) == InsertRow(Sort(rows), r)
  {
    assert (rows + [r])[..|rows|] == rows;
  }

  lemma FilterInsertLast(sorted: seq<Row>, last: Row, r: Row, keep: Row -> bool)
    requires Sorted(sorted) && sorted != [] && last == sorted[|sorted| - 1] && Before(last, r)
    ensures Filter(sorted + [r], keep) == if keep(r) then InsertRow(Filter(sorted, keep), r) else Filter(sorted, keep)
  {
    FilterAppend(sorted, r, keep);
    FilterMembers(sorted, keep);
    InsertAfterAll(Filter(sorted, keep), last, r, sorted);
    assert Filter(sorted, keep) + [] == Filter(sorted, keep);
  }

  /** Selecting commutes with inserting in order, and so with sorting. */
  lemma {:induction false} FilterInsert(sorted: seq<Row>, r: Row, keep: Row -> bool)
    requires Sorted(sorted)
    ensures Filter(InsertRow(sorted, r), keep) ==
              if keep(r) then InsertRow(Filter(sorted, keep), r) else Filter(sorted, keep)
  {
    if sorted == [] {
      FilterAppend([], r, keep);
    } else {
      var front, last := sorted[..|sorted| - 1], sorted[|sorted| - 1];
      assert sorted == front + [last];
      FilterAppend(front, last, keep);
      InsertAtEnd(front, last, r);
      if Before(last, r) {
        FilterInsertLast(sorted, last, r, keep);
      } else {
        FilterInsert(front, r, keep);
        FilterInsertEnd(front, r, last, keep);
      }
    }
  }

  lemma FilterInsertEnd(front: seq<Row>, r: Row, last: Row, keep: Row -> bool)
    requires !Before(last, r)
    requires Filter(InsertRow(front, r), keep) ==
               if keep(r) then InsertRow(Filter(front, keep), r) else Filter(front, keep)
    ensures Filter(InsertRow(front, r) + [last], keep) ==
            if keep(r) then InsertRow(Filter(front + [last], keep), r) else Filter(front + [last], keep)
  {
    FilterAppend(front, last, keep);
    FilterAppend(InsertRow(front, r), last, keep);
    if keep(last) {
      InsertAtEnd(Filter(front, keep), last, r);
    } else {
      assert Filter(front, keep) + [] == Filter(front, keep);
    }
  }

  lemma InsertAfterAll(kept: seq<Row>, last: Row, r: Row, sorted: seq<Row>)
    requires Sorted(sorted) && sorted != [] && last == sorted[|sorted| - 1] && Before(last, r)
    requires forall x :: x in kept ==> x in sorted
    ensures InsertRow(kept, r) == kept + [r]
  {
    if kept != [] {
      assert kept[|kept| - 1] in kept;
      var k :| 0 <= k < |sorted| && sorted[k] == kept[|kept| - 1];
      if k < |sorted| - 1 {
        BeforeTransitive(sorted[k], last, r);
      }
    }
  }

  lemma {:induction false} SortFilter(rows: seq<Row>, keep: Row -> bool)
    ensures Sort(Filter(rows, keep)) == Filter(Sort(rows), keep)
  {
    if rows != [] {
      var front, last := rows[..|rows| - 1], rows[|rows| - 1];
      assert rows == front + [last];
      FilterAppend(front, last, keep);
      SortFilter(front, keep);
      SortIsSorted(front);
      SortAtEnd(front, last);
      FilterInsert(Sort(front), last, keep);
      if keep(last) {
        SortAtEnd(Filter(front, keep), last);
      } else {
        assert Filter(front, keep) + [] == Filter(front, keep);
      }
    }
  }

  function Older(t: int): Row -> bool {
    (r: Row) => r.createdAt < t
  }

  lemma AllOlder(sorted: seq<Row>, t: int)
    requires Sorted(sorted) && sorted != [] && sorted[|sorted| - 1].createdAt < t
    ensures Filter(sorted, Older(t)) == sorted
  {
    forall r | r in sorted ensures Older(t)(r) {
      var i :| 0 <= i < |sorted| && sorted[i] == r;
      assert i < |sorted| - 1 ==> Before(sorted[i], sorted[|sorted| - 1]);
    }
    FilterAll(sorted, Older(t));
  }

  /** In a sorted list, the rows older than a time are a prefix, and the rest is no older. */
  lemma {:induction false} OlderIsPrefix(sorted: seq<Row>, t: int)
    requires Sorted(sorted)
    ensures var older := Filter(sorted, Older(t));
            && |older| <= |sorted| && older == sorted[..|older|]
            && (forall i :: 0 <= i < |older| ==> sorted[i].createdAt < t)
            && (forall i :: |older| <= i < |sorted| ==> sorted[i].createdAt >= t)
  {
    var p := Older(t);
    if sorted != [] {
      var front, last := sorted[..|sorted| - 1], sorted[|sorted| - 1];
      assert sorted == front + [last];
      FilterAppend(front, last, p);
      OlderIsPrefix(front, t);
      if p(last) {
        AllOlder(sorted, t);
      }
    }
  }
}
