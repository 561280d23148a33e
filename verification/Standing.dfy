/** Facts that some steps of a run give and others take back. */
module Standing {

  /** Given at step `j`, and not taken back before step `n`. */
  ghost predicate StandsSince(gives: nat -> bool, takes: nat -> bool, n: nat, j: nat) {
    j < n && gives(j) && forall k :: j < k < n ==> !takes(k)
  }

  /** Given at some step and not taken back since. */
  ghost predicate Stands(gives: nat -> bool, takes: nat -> bool, n: nat) {
    exists j: nat :: StandsSince(gives, takes, n, j)
  }

  lemma StandsOn(gives: nat -> bool, takes: nat -> bool, n: nat)
    ensures Stands(gives, takes, n + 1) <==> gives(n) || (Stands(gives, takes, n) && !takes(n))
  {
    var m := n + 1;
    if gives(n) {
      assert StandsSince(gives, takes, m, n);
    }
    if Stands(gives, takes, n) && !takes(n) {
      var j: nat :| StandsSince(gives, takes, n, j);
      assert StandsSince(gives, takes, m, j);
    }
    if Stands(gives, takes, m) {
      var j: nat :| StandsSince(gives, takes, m, j);
      if j != n {
        assert StandsSince(gives, takes, n, j);
      }
    }
  }

  /** A step changes the fact only by giving it or taking it back. */
  predicate Steps(holds: nat -> bool, gives: nat -> bool, takes: nat -> bool, k: nat) {
    holds(k + 1) <==> gives(k) || (holds(k) && !takes(k))
  }

  /** Then it holds exactly when it stands. */
  lemma {:induction false} HoldsExactly(holds: nat -> bool, gives: nat -> bool, takes: nat -> bool, n: nat)
    requires !holds(0) && forall k: nat :: k < n ==> Steps(holds, gives, takes, k)
    ensures holds(n) <==> Stands(gives, takes, n)
  {
    if n > 0 {
      HoldsExactly(holds, gives, takes, n - 1);
      assert Steps(holds, gives, takes, n - 1);
      StandsOn(gives, takes, n - 1);
    }
  }

  /** A step changes the fact only by giving it. */
  predicate Grows(holds: nat -> bool, gives: nat -> bool, k: nat) {
    holds(k + 1) <==> gives(k) || holds(k)
  }

  /** Then it holds exactly when some step has given it. */
  lemma {:induction false} HappenedExactly(holds: nat -> bool, gives: nat -> bool, n: nat)
    requires !holds(0) && forall k: nat :: k < n ==> Grows(holds, gives, k)
    ensures holds(n) <==> exists j: nat :: j < n && gives(j)
  {
    if n > 0 {
      HappenedExactly(holds, gives, n - 1);
      assert Grows(holds, gives, n - 1);
    }
  }
}
