/** Blocks of lines that open and close: which lines lie between an opening line and the one that
    closes it, and what is left of them. The lines, their weights and their traces are arbitrary. */
module BraceBlocks {
  import opened Collections

  /** What is left of some lines: the traces of those that leave one. */
  function Traces<T, U>(lines: seq<T>, trace: T -> Option<U>): seq<U> {
    if lines == [] then []
    else (if trace(lines[0]).Some? then [trace(lines[0]).value] else []) + Traces(lines[1..], trace)
  }

  /** Lines that are their own traces stay. */
  lemma {:induction false} TracesStay<T>(lines: seq<T>, trace: T -> Option<T>)
    requires forall l :: l in lines ==> trace(l) == Some(l)
    ensures Traces(lines, trace) == lines
  {
    if lines != [] {
      TracesStay(lines[1..], trace);
    }
  }

  function Prepend<T>(front: seq<T>, body: Option<seq<T>>): Option<seq<T>> {
    if body.Some? then Some(front + body.value) else None
  }

  /** The lines up to the first at which the depth is zero or less. */
  function Body<T>(lines: seq<T>, weigh: T -> int, depth: int): Option<seq<T>> {
    if lines == [] then None
    else if depth + weigh(lines[0]) <= 0 then Some([])
    else Prepend([lines[0]], Body(lines[1..], weigh, depth + weigh(lines[0])))
  }

  /** The body that follows the first opening line. */
  function Block<T>(lines: seq<T>, opens: T -> bool, weigh: T -> int): Option<seq<T>> {
    if lines == [] then None
    else if opens(lines[0]) then Body(lines[1..], weigh, 1)
    else Block(lines[1..], opens, weigh)
  }

  lemma EmptyFront<T>(body: Option<seq<T>>)
    ensures Prepend([], body) == body
  {
    assert body.Some? ==> [] + body.value == body.value;
  }

  lemma PrependMore<T>(front: seq<T>, line: T, body: Option<seq<T>>)
    ensures Prepend(front, Prepend([line], body)) == Prepend(front + [line], body)
  {
    assert body.Some? ==> front + ([line] + body.value) == front + [line] + body.value;
  }

  // ---------------------------------------------------------------- which lines these are

  /** The depth after the first `n` lines. */
  function DepthAfter<T>(lines: seq<T>, weigh: T -> int, depth: int, n: nat): int
    requires n <= |lines|
  {
    if n == 0 then depth else DepthAfter(lines, weigh, depth, n - 1) + weigh(lines[n - 1])
  }

  /** Line `n` is the first to bring the depth to zero or less. */
  predicate Closes<T>(lines: seq<T>, weigh: T -> int, depth: int, n: nat) {
    && n < |lines|
    && DepthAfter(lines, weigh, depth, n) + weigh(lines[n]) <= 0
    && forall k :: 0 < k <= n ==> DepthAfter(lines, weigh, depth, k) > 0
  }

  /** Line `i` is the first to open, and line `j` the first after it to close. */
  predicate Spans<T>(lines: seq<T>, opens: T -> bool, weigh: T -> int, i: nat, j: nat) {
    && i < j < |lines|
    && opens(lines[i]) && (forall k :: 0 <= k < i ==> !opens(lines[k]))
    && Closes(lines[i + 1..], weigh, 1, j - i - 1)
  }

  lemma {:induction false} DepthStep<T>(lines: seq<T>, weigh: T -> int, depth: int, n: nat)
    requires n < |lines|
    ensures DepthAfter(lines, weigh, depth, n + 1) == DepthAfter(lines[1..], weigh, depth + weigh(lines[0]), n)
  {
    if n > 0 {
      DepthStep(lines, weigh, depth, n - 1);
    }
  }

  lemma ClosesLater<T>(lines: seq<T>, weigh: T -> int, depth: int, n: nat)
    requires lines != [] && depth + weigh(lines[0]) > 0 && Closes(lines[1..], weigh, depth + weigh(lines[0]), n)
    ensures Closes(lines, weigh, depth, n + 1)
  {
    var d := depth + weigh(lines[0]);
    DepthStep(lines, weigh, depth, n);
    forall k | 0 < k <= n + 1 ensures DepthAfter(lines, weigh, depth, k) > 0 {
      DepthStep(lines, weigh, depth, k - 1);
      assert k > 1 ==> DepthAfter(lines[1..], weigh, d, k - 1) > 0;
    }
  }

  lemma ClosesEarlier<T>(lines: seq<T>, weigh: T -> int, depth: int, n: nat)
    requires n > 0 && Closes(lines, weigh, depth, n)
    ensures depth + weigh(lines[0]) > 0 && Closes(lines[1..], weigh, depth + weigh(lines[0]), n - 1)
  {
    assert DepthAfter(lines, weigh, depth, 1) == DepthAfter(lines, weigh, depth, 0) + weigh(lines[0]);
    DepthStep(lines, weigh, depth, n - 1);
    var rest, d := lines[1..], depth + weigh(lines[0]);
    forall k | 0 < k <= n - 1 ensures DepthAfter(rest, weigh, d, k) > 0 {
      DepthStep(lines, weigh, depth, k);
      assert DepthAfter(lines, weigh, depth, k + 1) > 0;
    }
  }

  lemma {:induction false} BodyFound<T>(lines: seq<T>, weigh: T -> int, depth: int) returns (n: nat)
    requires Body(lines, weigh, depth).Some?
    ensures Closes(lines, weigh, depth, n)
  {
    if depth + weigh(lines[0]) <= 0 {
      n := 0;
    } else {
      n := BodyFound(lines[1..], weigh, depth + weigh(lines[0]));
      ClosesLater(lines, weigh, depth, n);
      n := n + 1;
    }
  }

  lemma {:induction false} BodyIs<T>(lines: seq<T>, weigh: T -> int, depth: int, n: nat)
    requires Closes(lines, weigh, depth, n)
    ensures Body(lines, weigh, depth) == Some(lines[..n])
  {
    if n > 0 {
      ClosesEarlier(lines, weigh, depth, n);
      BodyIs(lines[1..], weigh, depth + weigh(lines[0]), n - 1);
      assert [lines[0]] + lines[1..][..n - 1] == lines[..n];
    }
  }

  lemma {:induction false} BlockFound<T>(lines: seq<T>, opens: T -> bool, weigh: T -> int) returns (i: nat, j: nat)
    requires Block(lines, opens, weigh).Some?
    ensures Spans(lines, opens, weigh, i, j)
  {
    if opens(lines[0]) {
      var n := BodyFound(lines[1..], weigh, 1);
      i, j := 0, n + 1;
    } else {
      i, j := BlockFound(lines[1..], opens, weigh);
      assert lines[1..][i + 1..] == lines[i + 2..];
      i, j := i + 1, j + 1;
    }
  }

  lemma {:induction false} BlockIs<T>(lines: seq<T>, opens: T -> bool, weigh: T -> int, i: nat, j: nat)
    requires Spans(lines, opens, weigh, i, j)
    ensures Block(lines, opens, weigh) == Some(lines[i + 1..j])
  {
    if i == 0 {
      BodyIs(lines[1..], weigh, 1, j - 1);
      assert lines[1..][..j - 1] == lines[1..j];
    } else {
      assert lines[1..][i..] == lines[i + 1..];
      assert forall k :: 0 <= k < i - 1 ==> lines[1..][k] == lines[k + 1];
      BlockIs(lines[1..], opens, weigh, i - 1, j - 1);
      assert lines[1..][i..j - 1] == lines[i + 1..j];
    }
  }

  /** The block is exactly the lines strictly between the first opening line and the line that
      closes it; there is none when there is no such pair. */
  lemma BlockIsExactly<T>(lines: seq<T>, opens: T -> bool, weigh: T -> int)
    ensures Block(lines, opens, weigh).Some? <==> exists i: nat, j: nat :: Spans(lines, opens, weigh, i, j)
    ensures forall i: nat, j: nat :: Spans(lines, opens, weigh, i, j) ==>
              Block(lines, opens, weigh) == Some(lines[i + 1..j])
  {
    if Block(lines, opens, weigh).Some? {
      var i, j := BlockFound(lines, opens, weigh);
    }
    forall i: nat, j: nat | Spans(lines, opens, weigh, i, j)
      ensures Block(lines, opens, weigh) == Some(lines[i + 1..j])
    {
      BlockIs(lines, opens, weigh, i, j);
    }
  }

  // ---------------------------------------------------------------- edits that do not show

  function Traced<T, U>(body: Option<seq<T>>, trace: T -> Option<U>): Option<seq<U>> {
    if body.Some? then Some(Traces(body.value, trace)) else None
  }

  /** The trace of a line before those of a body that goes on after it. */
  function Lead<U>(first: Option<U>, body: Option<seq<U>>): Option<seq<U>> {
    if body.None? || first.None? then body else Some([first.value] + body.value)
  }

  lemma TracedCons<T, U>(line: T, rest: seq<T>, weigh: T -> int, depth: int, trace: T -> Option<U>)
    ensures Traced(Body([line] + rest, weigh, depth), trace) ==
            if depth + weigh(line) <= 0 then Some([])
            else Lead(trace(line), Traced(Body(rest, weigh, depth + weigh(line)), trace))
  {
    assert ([line] + rest)[1..] == rest;
    var body := Body(rest, weigh, depth + weigh(line));
    if body.Some? {
      assert ([line] + body.value)[1..] == body.value;
      assert [] + Traces(body.value, trace) == Traces(body.value, trace);
    }
  }

  /** Two lists that leave the same at every depth. */
  ghost predicate LeaveSame<T, U>(a: seq<T>, b: seq<T>, weigh: T -> int, trace: T -> Option<U>) {
    forall d: int :: d > 0 ==> Traced(Body(a, weigh, d), trace) == Traced(Body(b, weigh, d), trace)
  }

  lemma {:induction false} SameAfter<T, U>(front: seq<T>, a: seq<T>, b: seq<T>,
                                           weigh: T -> int, depth: int, trace: T -> Option<U>)
    requires depth > 0 && LeaveSame(a, b, weigh, trace)
    ensures Traced(Body(front + a, weigh, depth), trace) == Traced(Body(front + b, weigh, depth), trace)
  {
    if front == [] {
      assert front + a == a && front + b == b;
    } else {
      var line, more := front[0], front[1..];
      assert front + a == [line] + (more + a) && front + b == [line] + (more + b);
      TracedCons(line, more + a, weigh, depth, trace);
      TracedCons(line, more + b, weigh, depth, trace);
      if depth + weigh(line) > 0 {
        SameAfter(more, a, b, weigh, depth + weigh(line), trace);
      }
    }
  }

  lemma {:induction false} BlockAfter<T>(before: seq<T>, opener: T, rest: seq<T>, opens: T -> bool, weigh: T -> int)
    requires opens(opener) && forall l :: l in before ==> !opens(l)
    ensures Block(before + [opener] + rest, opens, weigh) == Body(rest, weigh, 1)
  {
    var lines := before + [opener] + rest;
    if before == [] {
      assert lines[0] == opener && lines[1..] == rest;
    } else {
      assert lines[0] == before[0] && lines[1..] == before[1..] + [opener] + rest;
      BlockAfter(before[1..], opener, rest, opens, weigh);
    }
  }

  /** One line more, which weighs nothing and leaves no trace. */
  lemma AddedLeavesSame<T, U>(line: T, rest: seq<T>, weigh: T -> int, trace: T -> Option<U>)
    requires weigh(line) == 0 && trace(line).None?
    ensures LeaveSame([line] + rest, rest, weigh, trace)
  {
    forall d: int | d > 0 ensures Traced(Body([line] + rest, weigh, d), trace) == Traced(Body(rest, weigh, d), trace) {
      TracedCons(line, rest, weigh, d, trace);
    }
  }

  /** One line more that weighs something shows: at the end of an open body when it closes more, before
      a closing line when it opens more. */
  lemma UnbalancedLeaves<T, U>(line: T, closer: T, weigh: T -> int, trace: T -> Option<U>)
    returns (front: seq<T>, rest: seq<T>)
    requires weigh(line) != 0 && weigh(closer) == -1
    ensures forall l :: l in front + ([line] + rest) ==> l == line || l == closer
    ensures forall l :: l in front + rest ==> l == closer
    ensures Traced(Body(front + ([line] + rest), weigh, 1), trace) != Traced(Body(front + rest, weigh, 1), trace)
  {
    front, rest := [], if weigh(line) < 0 then [] else [closer];
    assert front + ([line] + rest) == [line] + rest && front + rest == rest;
    TracedCons(line, rest, weigh, 1, trace);
    if weigh(line) > 0 {
      assert [closer] + [] == [closer];
      TracedCons(closer, [], weigh, 1, trace);
      TracedCons(closer, [], weigh, 1 + weigh(line), trace);
    }
  }

  /** One line instead of another of the same weight and trace. */
  lemma ReplacedLeavesSame<T, U>(line: T, other: T, rest: seq<T>, weigh: T -> int, trace: T -> Option<U>)
    requires weigh(line) == weigh(other) && trace(line) == trace(other)
    ensures LeaveSame([line] + rest, [other] + rest, weigh, trace)
  {
    forall d: int | d > 0
      ensures Traced(Body([line] + rest, weigh, d), trace) == Traced(Body([other] + rest, weigh, d), trace)
    {
      TracedCons(line, rest, weigh, d, trace);
      TracedCons(other, rest, weigh, d, trace);
    }
  }

  /** An edit somewhere after the opening line that leaves the same does not show in the block. */
  lemma EditDoesNotShow<T, U>(before: seq<T>, opener: T, front: seq<T>, a: seq<T>, b: seq<T>,
                              opens: T -> bool, weigh: T -> int, trace: T -> Option<U>)
    requires opens(opener) && (forall l :: l in before ==> !opens(l)) && LeaveSame(a, b, weigh, trace)
    ensures Traced(Block(before + [opener] + (front + a), opens, weigh), trace) ==
            Traced(Block(before + [opener] + (front + b), opens, weigh), trace)
  {
    BlockAfter(before, opener, front + a, opens, weigh);
    BlockAfter(before, opener, front + b, opens, weigh);
    SameAfter(front, a, b, weigh, 1, trace);
  }

  // ---------------------------------------------------------------- findings

  /** What is found on each, in order. */
  function Gather<T, U>(items: seq<T>, find: T -> seq<U>): seq<U> {
    if items == [] then [] else Gather(items[..|items| - 1], find) + find(items[|items| - 1])
  }

  lemma GatherMore<T, U>(items: seq<T>, i: nat, find: T -> seq<U>)
    requires i < |items|
    ensures Gather(items[..i + 1], find) == Gather(items[..i], find) + find(items[i])
  {
    assert items[..i + 1][..i] == items[..i];
  }

  lemma {:induction false} GatherNothing<T, U>(items: seq<T>, find: T -> seq<U>)
    ensures Gather(items, find) == [] <==> forall k :: 0 <= k < |items| ==> find(items[k]) == []
  {
    if items != [] {
      GatherNothing(items[..|items| - 1], find);
    }
  }
}
