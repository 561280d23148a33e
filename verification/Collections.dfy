/** Lists and maps of sets as the server uses them: JavaScript arrays of distinct ids, filtered
    and de-duplicated, and `Map<string, Set<string>>` indexes whose empty sets are removed. */
module Collections {

  datatype Option<+T> = None | Some(value: T)

  // ---------------------------------------------------------------- filtering

  /** `s.filter(keep)`, and the WHERE clause of a query: order is kept. */
  function Filter<T>(s: seq<T>, keep: T -> bool): seq<T> {
    if s == [] then []
    else
      var n := |s| - 1;
      Filter(s[..n], keep) + if keep(s[n]) then [s[n]] else []
  }

  lemma {:induction false} FilterMembers<T>(s: seq<T>, keep: T -> bool)
    ensures forall x :: x in Filter(s, keep) ==> x in s && keep(x)
    ensures forall x :: x in s && keep(x) ==> x in Filter(s, keep)
  {
    if s != [] {
      var n := |s| - 1;
      FilterMembers(s[..n], keep);
      assert s == s[..n] + [s[n]];
    }
  }

  lemma FilterAppend<T>(s: seq<T>, x: T, keep: T -> bool)
    ensures Filter(s + [x], keep) == Filter(s, keep) + if keep(x) then [x] else []
  {
    assert (s + [x])[..|s|] == s;
  }

  lemma {:induction false} FilterConcat<T>(a: seq<T>, b: seq<T>, keep: T -> bool)
    ensures Filter(a + b, keep) == Filter(a, keep) + Filter(b, keep)
  {
    if b == [] {
      assert a + b == a;
    } else {
      var front, last := b[..|b| - 1], b[|b| - 1];
      FilterConcat(a, front, keep);
      FilterAppend(front, last, keep);
      FilterAppend(a + front, last, keep);
      assert front + [last] == b && a + b == (a + front) + [last];
    }
  }

  lemma {:induction false} FilterAll<T>(s: seq<T>, keep: T -> bool)
    requires forall x :: x in s ==> keep(x)
    ensures Filter(s, keep) == s
  {
    if s != [] {
      var n := |s| - 1;
      assert s == s[..n] + [s[n]] && s[n] in s;
      FilterAll(s[..n], keep);
    }
  }

  lemma {:induction false} FilterNone<T>(s: seq<T>, keep: T -> bool)
    requires forall x :: x in s ==> !keep(x)
    ensures Filter(s, keep) == []
  {
    if s != [] {
      var n := |s| - 1;
      assert s == s[..n] + [s[n]] && s[n] in s;
      FilterNone(s[..n], keep);
    }
  }

  /** Selecting twice is selecting by both. */
  lemma {:induction false} FilterTwice<T>(s: seq<T>, p: T -> bool, q: T -> bool, both: T -> bool)
    requires forall x :: both(x) == (p(x) && q(x))
    ensures Filter(Filter(s, p), q) == Filter(s, both)
  {
    if s != [] {
      var front, last := s[..|s| - 1], s[|s| - 1];
      assert s == front + [last];
      FilterTwice(front, p, q, both);
      FilterAppend(front, last, p);
      FilterAppend(front, last, both);
      FilterAppend(Filter(front, p), last, q);
      assert Filter(front, p) + [] == Filter(front, p);
    }
  }

  /** Two predicates that agree on the elements select the same list. */
  lemma {:induction false} FilterAgrees<T>(s: seq<T>, keep: T -> bool, keep': T -> bool)
    requires forall x :: x in s ==> keep(x) == keep'(x)
    ensures Filter(s, keep) == Filter(s, keep')
  {
    if s != [] {
      var n := |s| - 1;
      assert s == s[..n] + [s[n]] && s[n] in s;
      FilterAgrees(s[..n], keep, keep');
    }
  }

  // ---------------------------------------------------------------- lists of distinct ids

  predicate NoDup(s: seq<string>) {
    s == [] || (s[0] !in s[1..] && NoDup(s[1..]))
  }

  function Elements(s: seq<string>): set<string> {
    set x | x in s
  }

  /** `s.filter((id) => id !== x)` */
  function Without(s: seq<string>, x: string): (r: seq<string>)
    ensures forall y :: y in r <==> y in s && y != x
    ensures NoDup(s) ==> NoDup(r) && |r| == |s| - (if x in s then 1 else 0)
    ensures x !in s ==> r == s
  {
    if s == [] then []
    else if s[0] == x then Without(s[1..], x)
    else [s[0]] + Without(s[1..], x)
  }

  /** The elements of `s` that are in `kept`, in order. */
  function Keep(s: seq<string>, kept: set<string>): (r: seq<string>)
    ensures forall y :: y in r <==> y in s && y in kept
  {
    if s == [] then []
    else if s[0] in kept then [s[0]] + Keep(s[1..], kept)
    else Keep(s[1..], kept)
  }

  /** `Array.from(new Set(s))`: first occurrences, in order. */
  function Dedup(s: seq<string>): (r: seq<string>)
    ensures forall y :: y in r <==> y in s
    ensures NoDup(r)
  {
    if s == [] then [] else [s[0]] + Without(Dedup(s[1..]), s[0])
  }

  /** The first place of `x`, or the length. */
  function IndexOf(s: seq<string>, x: string): nat {
    if s == [] || s[0] == x then 0 else 1 + IndexOf(s[1..], x)
  }

  lemma {:induction false} WithoutKeepsOrder(s: seq<string>, x: string, i: nat, j: nat) returns (k: nat, l: nat)
    requires i < j < |Without(s, x)|
    ensures k < l < |s| && s[k] == Without(s, x)[i] && s[l] == Without(s, x)[j]
  {
    if s[0] == x {
      k, l := WithoutKeepsOrder(s[1..], x, i, j);
      k, l := k + 1, l + 1;
    } else if i == 0 {
      assert Without(s, x)[j] in Without(s[1..], x);
      k, l :| k == 0 && 1 <= l < |s| && s[l] == Without(s, x)[j];
    } else {
      k, l := WithoutKeepsOrder(s[1..], x, i - 1, j - 1);
      k, l := k + 1, l + 1;
    }
  }

  /** The elements of `d` are listed in the order in which they first come in `s`. */
  predicate InOrderOf(d: seq<string>, s: seq<string>) {
    forall i, j :: 0 <= i < j < |d| ==> IndexOf(s, d[i]) < IndexOf(s, d[j])
  }

  lemma WithoutInOrder(d: seq<string>, x: string, s: seq<string>)
    requires InOrderOf(d, s)
    ensures InOrderOf(Without(d, x), s)
  {
    forall i, j | 0 <= i < j < |Without(d, x)|
      ensures IndexOf(s, Without(d, x)[i]) < IndexOf(s, Without(d, x)[j])
    {
      var k, l := WithoutKeepsOrder(d, x, i, j);
    }
  }

  lemma FirstThenRest(s: seq<string>, rest: seq<string>)
    requires s != [] && InOrderOf(rest, s[1..]) && s[0] !in rest
    ensures InOrderOf([s[0]] + rest, s)
  {
    forall x | x in rest ensures IndexOf(s, x) == 1 + IndexOf(s[1..], x) {}
  }

  /** What a set keeps stands in the order in which it first came. */
  lemma {:induction false} DedupKeepsOrder(s: seq<string>)
    ensures InOrderOf(Dedup(s), s)
  {
    if s != [] {
      DedupKeepsOrder(s[1..]);
      WithoutInOrder(Dedup(s[1..]), s[0], s[1..]);
      FirstThenRest(s, Without(Dedup(s[1..]), s[0]));
    }
  }

  /** `s.filter(Boolean)` on strings. */
  function NonEmpty(s: seq<string>): (r: seq<string>)
    ensures forall y :: y in r <==> y in s && y != ""
  {
    Without(s, "")
  }

  lemma {:induction false} NoDupAppend(s: seq<string>, x: string)
    requires NoDup(s) && x !in s
    ensures NoDup(s + [x])
  {
    if s != [] {
      NoDupAppend(s[1..], x);
      assert (s + [x])[1..] == s[1..] + [x];
    }
  }

  lemma {:induction false} NoDupIndices(s: seq<string>, i: nat, j: nat)
    requires NoDup(s) && i < j < |s|
    ensures s[i] != s[j]
  {
    if i == 0 {
      assert s[j] == s[1..][j - 1];
    } else {
      NoDupIndices(s[1..], i - 1, j - 1);
    }
  }

  lemma {:induction false} NoDupCardinality(s: seq<string>)
    requires NoDup(s)
    ensures |Elements(s)| == |s|
  {
    if s != [] {
      NoDupCardinality(s[1..]);
      assert Elements(s) == {s[0]} + Elements(s[1..]);
    }
  }

  lemma {:induction false} KeepAll(s: seq<string>, kept: set<string>)
    requires forall y :: y in s ==> y in kept
    ensures Keep(s, kept) == s
  {
    if s != [] {
      KeepAll(s[1..], kept);
    }
  }

  lemma {:induction false} KeepFewer(s: seq<string>, kept: set<string>, x: string)
    ensures Keep(s, kept - {x}) == Without(Keep(s, kept), x)
  {
    if s != [] {
      KeepFewer(s[1..], kept, x);
    }
  }

  // ---------------------------------------------------------------- maps of non-empty sets

  function Bucket(m: map<string, set<string>>, k: string): set<string> {
    if k in m then m[k] else {}
  }

  predicate NoEmptyBucket(m: map<string, set<string>>) {
    forall k :: k in m ==> m[k] != {}
  }

  /** Get or create the set under `k`, then add `v`. */
  function PutInBucket(m: map<string, set<string>>, k: string, v: string): (r: map<string, set<string>>)
    ensures forall k', v' :: v' in Bucket(r, k') <==> v' in Bucket(m, k') || (k' == k && v' == v)
    ensures NoEmptyBucket(m) ==> NoEmptyBucket(r)
  {
    m[k := Bucket(m, k) + {v}]
  }

  /** Delete `v` from the set under `k`, then drop the key if the set became empty. */
  function DropFromBucket(m: map<string, set<string>>, k: string, v: string): (r: map<string, set<string>>)
    ensures forall k', v' :: v' in Bucket(r, k') <==> v' in Bucket(m, k') && !(k' == k && v' == v)
    ensures NoEmptyBucket(m) ==> NoEmptyBucket(r)
  {
    if k !in m then m
    else if m[k] - {v} == {} then m - {k}
    else m[k := m[k] - {v}]
  }

  /** Two such maps without empty sets are equal when they hold the same pairs. */
  lemma BucketsDetermineMap(m: map<string, set<string>>, n: map<string, set<string>>)
    requires NoEmptyBucket(m) && NoEmptyBucket(n)
    requires forall k, v :: v in Bucket(m, k) <==> v in Bucket(n, k)
    ensures m == n
  {
    forall k ensures k in m <==> k in n {
      if k in m {
        var v :| v in m[k];
        assert v in Bucket(n, k);
      }
      if k in n {
        var v :| v in n[k];
        assert v in Bucket(m, k);
      }
    }
    forall k | k in m ensures m[k] == n[k] {
      forall v ensures v in m[k] <==> v in n[k] {
        assert v in Bucket(m, k) <==> v in Bucket(n, k);
      }
    }
  }
}
