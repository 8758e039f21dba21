/** Two-pass rollback of the undo stack (framework/config_guard.py).

    The device accepts an undo exactly when every undo it depends on has already taken effect,
    and an undo it refuses changes nothing.  What the guard sees of an attempt is a verdict,
    which may differ from what the device did: a command line tool may report success for a
    refused command, and a verify hook may raise for one that worked. */
module ConfigGuard {

  /** One slot of the undo stack.  `Placeholder` is an entry without a command.
      `needs` are the positions of the undos that must have taken effect first;
      `okIfTaken` and `okIfRefused` are the verdicts on an accepted and on a refused attempt. */
  datatype Entry =
    | Placeholder
    | Undo(needs: set<nat>, okIfTaken: bool, okIfRefused: bool)

  /** What a pass leaves: the undos in effect, the attempts to repeat, and every attempt made. */
  datatype Outcome = Outcome(applied: set<nat>, failed: seq<nat>, runs: seq<nat>)

  predicate Runnable(stack: seq<Entry>, i: nat) {
    i < |stack| && stack[i].Undo?
  }

  /** A refused attempt that is reported as a success. */
  predicate Silent(stack: seq<Entry>, i: nat) {
    Runnable(stack, i) && stack[i].okIfRefused
  }

  predicate AllRunnable(stack: seq<Entry>, todo: seq<nat>) {
    forall k :: 0 <= k < |todo| ==> Runnable(stack, todo[k])
  }

  predicate Descending(todo: seq<nat>) {
    forall k, l :: 0 <= k < l < |todo| ==> todo[k] > todo[l]
  }

  /** One attempt of undo `i`. */
  function Attempt(stack: seq<Entry>, o: Outcome, i: nat): Outcome
    requires Runnable(stack, i)
  {
    var taken := stack[i].needs <= o.applied;
    var ok := if taken then stack[i].okIfTaken else stack[i].okIfRefused;
    Outcome(if taken then o.applied + {i} else o.applied,
            if ok then o.failed else o.failed + [i],
            o.runs + [i])
  }

  /** One pass over `todo`, from left to right, starting with `applied` in effect. */
  function Sweep(stack: seq<Entry>, applied: set<nat>, todo: seq<nat>): Outcome
    requires AllRunnable(stack, todo)
  {
    if todo == [] then Outcome(applied, [], [])
    else
      var n := |todo| - 1;
      Attempt(stack, Sweep(stack, applied, todo[..n]), todo[n])
  }

  /** The positions holding a command, last registered first. */
  function Reversed(stack: seq<Entry>, n: nat): (todo: seq<nat>)
    requires n <= |stack|
    ensures AllRunnable(stack, todo) && Descending(todo)
    ensures forall i: nat :: i in todo <==> i < n && Runnable(stack, i)
  {
    if n == 0 then []
    else if stack[n - 1].Undo? then [n - 1] + Reversed(stack, n - 1)
    else Reversed(stack, n - 1)
  }

  /** The first pass of a rollback. */
  function FirstPass(stack: seq<Entry>): (o: Outcome)
    ensures AllRunnable(stack, o.failed) && Descending(o.failed)
  {
    var todo := Reversed(stack, |stack|);
    SweepFailed(stack, {}, todo);
    Sweep(stack, {}, todo)
  }

  /** The retry pass, over the attempts the first pass judged failed. */
  function Retry(stack: seq<Entry>): Outcome {
    Sweep(stack, FirstPass(stack).applied, FirstPass(stack).failed)
  }

  /** A pass attempts its whole list in order. */
  lemma {:induction false} SweepRuns(stack: seq<Entry>, applied: set<nat>, todo: seq<nat>)
    requires AllRunnable(stack, todo)
    ensures Sweep(stack, applied, todo).runs == todo
  {
    if todo != [] {
      SweepRuns(stack, applied, todo[..|todo| - 1]);
    }
  }

  /** A pass fails only members of its list, in the order of the list. */
  lemma {:induction false} SweepFailed(stack: seq<Entry>, applied: set<nat>, todo: seq<nat>)
    requires AllRunnable(stack, todo)
    ensures forall i :: i in Sweep(stack, applied, todo).failed ==> i in todo
    ensures AllRunnable(stack, Sweep(stack, applied, todo).failed)
    ensures Descending(todo) ==> Descending(Sweep(stack, applied, todo).failed)
  {
    if todo != [] {
      var n := |todo| - 1;
      var before := Sweep(stack, applied, todo[..n]);
      SweepFailed(stack, applied, todo[..n]);
      assert forall i :: i in todo[..n] ==> i in todo;
      AppendFailed(stack, todo, before.failed);
    }
  }

  lemma AppendFailed(stack: seq<Entry>, todo: seq<nat>, failed: seq<nat>)
    requires todo != [] && AllRunnable(stack, todo) && AllRunnable(stack, failed)
    requires forall i :: i in failed ==> i in todo[..|todo| - 1]
    ensures AllRunnable(stack, failed + [todo[|todo| - 1]])
    ensures Descending(todo) && Descending(failed) ==> Descending(failed + [todo[|todo| - 1]])
  {
    if Descending(todo) && Descending(failed) {
      forall k | 0 <= k < |failed| ensures failed[k] > todo[|todo| - 1] {
        assert failed[k] in failed;
        assert failed[k] in todo[..|todo| - 1];
      }
    }
  }

  /** What one pass does with the undo at position `k` of its list: its prerequisites are
      judged against what was in effect at its turn, and nothing later undoes that. */
  lemma {:induction false} SweepTurn(stack: seq<Entry>, applied: set<nat>, todo: seq<nat>, k: nat)
    requires AllRunnable(stack, todo) && Descending(todo) && k < |todo|
    ensures var at := Sweep(stack, applied, todo[..k]);
            var end := Sweep(stack, applied, todo);
            var i := todo[k];
            && (i in end.applied <==> i in applied || stack[i].needs <= at.applied)
            && (i in end.failed <==>
                 !(if stack[i].needs <= at.applied then stack[i].okIfTaken else stack[i].okIfRefused))
    decreases |todo|
  {
    var n := |todo| - 1;
    assert todo[..n][..k] == todo[..k];
    if k < n {
      SweepTurn(stack, applied, todo[..n], k);
    } else {
      SweepGains(stack, applied, todo[..n]);
      SweepFailed(stack, applied, todo[..n]);
    }
  }

  /** A pass adds only undos from its own list. */
  lemma {:induction false} SweepGains(stack: seq<Entry>, applied: set<nat>, todo: seq<nat>)
    requires AllRunnable(stack, todo)
    ensures applied <= Sweep(stack, applied, todo).applied
    ensures forall i :: i in Sweep(stack, applied, todo).applied ==> i in applied || i in todo
  {
    if todo != [] {
      SweepGains(stack, applied, todo[..|todo| - 1]);
      assert todo == todo[..|todo| - 1] + [todo[|todo| - 1]];
    }
  }

  // ---- dependency paths ----

  /** A chain of undos, each needing the next. */
  predicate IsPath(stack: seq<Entry>, p: seq<nat>) {
    && p != []
    && forall k :: 0 <= k < |p| - 1 ==> Runnable(stack, p[k]) && p[k + 1] in stack[p[k]].needs
  }

  /** How many edges of the chain point against the order of the pass,
      that is, lead to an undo whose turn is not earlier. */
  function Inversions(p: seq<nat>): nat {
    if |p| < 2 then 0 else (if p[1] <= p[0] then 1 else 0) + Inversions(p[1..])
  }

  /** A chain that one pass cannot work through. */
  predicate BlocksPass(stack: seq<Entry>, p: seq<nat>) {
    && IsPath(stack, p)
    && (!Runnable(stack, p[|p| - 1]) || Inversions(p) >= 1)
  }

  /** A chain that pass plus retry cannot work through: it ends in something that never runs,
      or has two inversions, or has one at or below an undo whose refusal goes unnoticed. */
  predicate BlocksRollback(stack: seq<Entry>, p: seq<nat>) {
    && IsPath(stack, p)
    && (|| !Runnable(stack, p[|p| - 1])
        || Inversions(p) >= 2
        || exists k :: 0 <= k < |p| && Silent(stack, p[k]) && Inversions(p[k..]) >= 1)
  }

  lemma {:induction false} PathTail(stack: seq<Entry>, p: seq<nat>)
    requires IsPath(stack, p) && |p| >= 2
    ensures IsPath(stack, p[1..])
    ensures Runnable(stack, p[0]) && p[1] in stack[p[0]].needs
    ensures Inversions(p) == (if p[1] <= p[0] then 1 else 0) + Inversions(p[1..])
  {
    assert Runnable(stack, p[0]) && p[0 + 1] in stack[p[0]].needs;
    forall k | 0 <= k < |p[1..]| - 1
      ensures Runnable(stack, p[1..][k]) && p[1..][k + 1] in stack[p[1..][k]].needs
    {
      assert p[1..][k] == p[k + 1] && p[1..][k + 1] == p[k + 2];
      assert p[(k + 1) + 1] in stack[p[k + 1]].needs;
    }
  }

  lemma {:induction false} PathCons(stack: seq<Entry>, i: nat, p: seq<nat>)
    requires Runnable(stack, i) && IsPath(stack, p) && p[0] in stack[i].needs
    ensures IsPath(stack, [i] + p)
    ensures ([i] + p)[1..] == p && ([i] + p)[0] == i && |[i] + p| == |p| + 1
    ensures ([i] + p)[|p|] == p[|p| - 1]
    ensures Inversions([i] + p) == (if p[0] <= i then 1 else 0) + Inversions(p)
  {
    var q := [i] + p;
    assert q[1..] == p;
    forall k | 0 <= k < |q| - 1 ensures Runnable(stack, q[k]) && q[k + 1] in stack[q[k]].needs {
      if k > 0 {
        assert q[k] == p[k - 1] && q[k + 1] == p[(k - 1) + 1];
      }
    }
  }

  /** Position of `i` in the first pass, and what was in effect at its turn. */
  lemma {:induction false} FirstTurn(stack: seq<Entry>, i: nat) returns (k: nat, todo: seq<nat>)
    requires Runnable(stack, i)
    ensures todo == Reversed(stack, |stack|) && k < |todo| && todo[k] == i
    ensures i in FirstPass(stack).applied <==> stack[i].needs <= Sweep(stack, {}, todo[..k]).applied
    ensures i in FirstPass(stack).failed <==>
            !(if i in FirstPass(stack).applied then stack[i].okIfTaken else stack[i].okIfRefused)
    ensures forall j :: j in Sweep(stack, {}, todo[..k]).applied <==> j in FirstPass(stack).applied && j > i
  {
    todo := Reversed(stack, |stack|);
    assert i in todo;
    k :| 0 <= k < |todo| && todo[k] == i;
    SweepTurn(stack, {}, todo, k);
    AppliedAtTurn(stack, {}, todo, k);
    SweepGains(stack, {}, todo);
  }

  /** What is in effect at a turn is what was there before the pass together with the earlier
      (higher) positions that the whole pass puts into effect. */
  lemma {:induction false} AppliedAtTurn(stack: seq<Entry>, applied: set<nat>, todo: seq<nat>, k: nat)
    requires AllRunnable(stack, todo) && Descending(todo) && k < |todo|
    ensures forall j :: j in Sweep(stack, applied, todo[..k]).applied <==>
              j in applied || (j in Sweep(stack, applied, todo).applied && j > todo[k] && j in todo)
  {
    SweepGains(stack, applied, todo[..k]);
    SweepGains(stack, applied, todo);
    forall j
      ensures j in Sweep(stack, applied, todo[..k]).applied <==>
              j in applied || (j in Sweep(stack, applied, todo).applied && j > todo[k] && j in todo)
    {
      if j in Sweep(stack, applied, todo[..k]).applied && j !in applied {
        var l :| 0 <= l < k && todo[..k][l] == j;
        assert todo[..k][..l] == todo[..l];
        SweepTurn(stack, applied, todo[..k], l);
        SweepTurn(stack, applied, todo, l);
      }
      if j in Sweep(stack, applied, todo).applied && j > todo[k] && j in todo && j !in applied {
        var l :| 0 <= l < |todo| && todo[l] == j;
        assert l < k;
        assert todo[..k][..l] == todo[..l];
        SweepTurn(stack, applied, todo[..k], l);
        SweepTurn(stack, applied, todo, l);
      }
    }
  }

  /** One pass puts an undo into effect exactly when no chain from it blocks a pass. */
  lemma {:induction false} FirstPassSound(stack: seq<Entry>, p: seq<nat>)
    requires IsPath(stack, p) && p[0] in FirstPass(stack).applied
    ensures !BlocksPass(stack, p)
    decreases |p|
  {
    OnlyRunnable(stack);
    if |p| >= 2 {
      PathTail(stack, p);
      var k, todo := FirstTurn(stack, p[0]);
      FirstPassSound(stack, p[1..]);
    }
  }

  lemma {:induction false} OnlyRunnable(stack: seq<Entry>)
    ensures forall i :: i in FirstPass(stack).applied ==> Runnable(stack, i)
    ensures forall i :: i in Retry(stack).applied ==> Runnable(stack, i)
  {
    SweepGains(stack, {}, Reversed(stack, |stack|));
    SweepGains(stack, FirstPass(stack).applied, FirstPass(stack).failed);
  }

  lemma {:induction false} FirstPassComplete(stack: seq<Entry>, i: nat) returns (p: seq<nat>)
    requires i !in FirstPass(stack).applied
    ensures BlocksPass(stack, p) && p[0] == i
    decreases |stack| - i
  {
    if !Runnable(stack, i) {
      return [i];
    }
    var k, todo := FirstTurn(stack, i);
    var j :| j in stack[i].needs && j !in Sweep(stack, {}, todo[..k]).applied;
    if j <= i {
      p := [i, j];
      assert p[1..] == [j];
      assert IsPath(stack, p);
    } else {
      var q := FirstPassComplete(stack, j);
      PathCons(stack, i, q);
      p := [i] + q;
    }
  }

  /** Position of `i` in the retry pass. */
  lemma {:induction false} RetryTurn(stack: seq<Entry>, i: nat) returns (at: set<nat>)
    requires i in FirstPass(stack).failed
    ensures i in Retry(stack).applied <==> i in FirstPass(stack).applied || stack[i].needs <= at
    ensures forall j :: j in at ==> j in FirstPass(stack).applied || (j in Retry(stack).applied && j > i)
    ensures forall j :: j in FirstPass(stack).applied || (j in Retry(stack).applied && j > i) ==> j in at
  {
    var todo := FirstPass(stack).failed;
    var k :| 0 <= k < |todo| && todo[k] == i;
    SweepTurn(stack, FirstPass(stack).applied, todo, k);
    AppliedAtTurn(stack, FirstPass(stack).applied, todo, k);
    SweepGains(stack, FirstPass(stack).applied, todo);
    at := Sweep(stack, FirstPass(stack).applied, todo[..k]).applied;
  }

  /** No chain of prerequisites from `i` stops pass plus retry. */
  ghost predicate Healable(stack: seq<Entry>, i: nat) {
    forall p :: IsPath(stack, p) && p[0] == i ==> !BlocksRollback(stack, p)
  }

  lemma {:induction false} SuffixInversions(p: seq<nat>, k: nat)
    requires k < |p|
    ensures Inversions(p[k..]) <= Inversions(p)
  {
    if k > 0 {
      assert p[1..][k - 1..] == p[k..];
      SuffixInversions(p[1..], k - 1);
    } else {
      assert p[0..] == p;
    }
  }

  lemma {:induction false} RollbackSound(stack: seq<Entry>, p: seq<nat>)
    requires IsPath(stack, p) && p[0] in Retry(stack).applied
    ensures !BlocksRollback(stack, p)
    decreases |p|
  {
    OnlyRunnable(stack);
    var i := p[0];
    if i in FirstPass(stack).applied {
      FirstPassSound(stack, p);
      forall k | 0 <= k < |p| ensures Inversions(p[k..]) == 0 {
        SuffixInversions(p, k);
      }
    } else {
      SweepGains(stack, FirstPass(stack).applied, FirstPass(stack).failed);
      var k, todo := FirstTurn(stack, i);
      var at := RetryTurn(stack, i);
      if |p| >= 2 {
        PathTail(stack, p);
        if p[1] in FirstPass(stack).applied {
          FirstPassSound(stack, p[1..]);
        }
        SweepGains(stack, FirstPass(stack).applied, FirstPass(stack).failed);
        RollbackSound(stack, p[1..]);
        forall k | 0 <= k < |p| && Silent(stack, p[k]) ensures Inversions(p[k..]) == 0 {
          assert k > 0;
          assert p[1..][k - 1] == p[k] && p[1..][k - 1..] == p[k..];
        }
      } else {
        forall k | 0 <= k < |p| ensures Inversions(p[k..]) == 0 {}
      }
    }
  }

  lemma {:induction false} RollbackComplete(stack: seq<Entry>, i: nat) returns (p: seq<nat>)
    requires i !in Retry(stack).applied
    ensures BlocksRollback(stack, p) && p[0] == i
    decreases |stack| - i
  {
    SweepGains(stack, FirstPass(stack).applied, FirstPass(stack).failed);
    if !Runnable(stack, i) {
      return [i];
    }
    if Silent(stack, i) {
      p := FirstPassComplete(stack, i);
      assert p[0..] == p;
      return;
    }
    var k, todo := FirstTurn(stack, i);
    var at := RetryTurn(stack, i);
    var j :| j in stack[i].needs && j !in at;
    if j <= i {
      var q := FirstPassComplete(stack, j);
      PathCons(stack, i, q);
      p := [i] + q;
    } else {
      var q := RollbackComplete(stack, j);
      PathCons(stack, i, q);
      p := [i] + q;
      if l :| 0 <= l < |q| && Silent(stack, q[l]) && Inversions(q[l..]) >= 1 {
        assert p[l + 1] == q[l] && p[l + 1..] == q[l..];
      }
    }
  }

  /** The dependency shapes that pass plus retry heals, for every stack, cyclic ones included:
      an undo is in effect at the end if and only if every chain of prerequisites from it stays
      among commands, has at most one inversion, and has none at or below an undo whose
      refusal is reported as a success. */
  lemma RollbackHealsExactly(stack: seq<Entry>, i: nat)
    ensures i in Retry(stack).applied <==> Healable(stack, i)
  {
    if i in Retry(stack).applied {
      forall p | IsPath(stack, p) && p[0] == i ensures !BlocksRollback(stack, p) {
        RollbackSound(stack, p);
      }
    } else {
      var p := RollbackComplete(stack, i);
      assert IsPath(stack, p) && p[0] == i;
    }
  }

  /** Without the retry pass a single inversion is already fatal. */
  lemma OnePassHealsExactly(stack: seq<Entry>, i: nat)
    ensures i in FirstPass(stack).applied <==>
            (forall p :: IsPath(stack, p) && p[0] == i ==> !BlocksPass(stack, p))
  {
    if i in FirstPass(stack).applied {
      forall p | IsPath(stack, p) && p[0] == i ensures !BlocksPass(stack, p) {
        FirstPassSound(stack, p);
      }
    } else {
      var p := FirstPassComplete(stack, i);
      assert IsPath(stack, p) && p[0] == i;
    }
  }

  lemma {:induction false} DescendingCounts(todo: seq<nat>, i: nat)
    requires Descending(todo)
    ensures multiset(todo)[i] == if i in todo then 1 else 0
  {
    if todo != [] {
      DescendingCounts(todo[1..], i);
      assert todo == [todo[0]] + todo[1..];
    }
  }

  /** A rollback attempts each command once, and once more exactly when the first verdict on it
      was a failure; placeholders are never attempted. */
  lemma AttemptsOfEach(stack: seq<Entry>, i: nat)
    ensures multiset(Reversed(stack, |stack|) + FirstPass(stack).failed)[i] ==
              if !Runnable(stack, i) then 0
              else if (if i in FirstPass(stack).applied then stack[i].okIfTaken else stack[i].okIfRefused) then 1
              else 2
  {
    DescendingCounts(Reversed(stack, |stack|), i);
    DescendingCounts(FirstPass(stack).failed, i);
    if Runnable(stack, i) {
      var k, todo := FirstTurn(stack, i);
    } else {
      SweepFailed(stack, {}, Reversed(stack, |stack|));
    }
  }

  /** Two inversions on one chain defeat the rollback: each undo waits for the one registered
      before it. */
  lemma TwoInversionsFail()
    ensures var stack := [Undo({}, true, false), Undo({0}, true, false), Undo({1}, true, false)];
            2 !in Retry(stack).applied
  {
    var stack := [Undo({}, true, false), Undo({0}, true, false), Undo({1}, true, false)];
    RollbackHealsExactly(stack, 2);
    assert IsPath(stack, [2, 1, 0]) && Inversions([2, 1, 0]) == 2 by {
      assert [2, 1, 0][1..] == [1, 0];
      assert [1, 0][1..] == [0];
    }
    assert BlocksRollback(stack, [2, 1, 0]);
  }

  // ---- the guard itself ----

  lemma SweepAppend(stack: seq<Entry>, applied: set<nat>, todo: seq<nat>, i: nat)
    requires AllRunnable(stack, todo) && Runnable(stack, i)
    ensures AllRunnable(stack, todo + [i])
    ensures Sweep(stack, applied, todo + [i]) == Attempt(stack, Sweep(stack, applied, todo), i)
  {
    assert (todo + [i])[..|todo|] == todo;
  }

  lemma ReversedStep(stack: seq<Entry>, done: seq<nat>, n: nat)
    requires Runnable(stack, n)
    ensures done + Reversed(stack, n + 1) == (done + [n]) + Reversed(stack, n)
  {
    assert done + ([n] + Reversed(stack, n)) == (done + [n]) + Reversed(stack, n);
  }

  class ConfigGuard {
    var undo: seq<Entry>
    /** The device: which undos are in effect, and every attempt it has seen. */
    var applied: set<nat>
    var runs: seq<nat>

    constructor ()
      ensures undo == [] && applied == {} && runs == []
    {
      undo, applied, runs := [], {}, [];
    }

    method DeferUndo(e: Entry)
      modifies this`undo
      ensures undo == old(undo) + [e]
    {
      undo := undo + [e];
    }

    /** One attempt; the result is the verdict on it. */
    method RunUndo(i: nat) returns (ok: bool)
      requires Runnable(undo, i)
      modifies this`applied, this`runs
      ensures ok == if undo[i].needs <= old(applied) then undo[i].okIfTaken else undo[i].okIfRefused
      ensures applied == if undo[i].needs <= old(applied) then old(applied) + {i} else old(applied)
      ensures runs == old(runs) + [i]
    {
      runs := runs + [i];
      if undo[i].needs <= applied {
        applied := applied + {i};
        ok := undo[i].okIfTaken;
      } else {
        ok := undo[i].okIfRefused;
      }
    }

    /** The exit: a reverse pass, then one retry of what it judged failed.  Every command is
        attempted once in reverse order, the failed ones once more in the same order, and
        the stack is emptied whatever the verdicts. */
    method Exit()
      requires applied == {} && runs == []
      modifies this
      ensures undo == []
      ensures applied == Retry(old(undo)).applied
      ensures runs == Reversed(old(undo), |old(undo)|) + FirstPass(old(undo)).failed
      ensures forall i: nat :: i in applied <==> Healable(old(undo), i)
    {
      var failed := ReversePass();
      RetryPass(failed);
      forall i: nat ensures i in applied <==> Healable(undo, i) {
        RollbackHealsExactly(undo, i);
      }
      undo := [];
    }

    method ReversePass() returns (failed: seq<nat>)
      requires applied == {} && runs == []
      modifies this`applied, this`runs
      ensures Outcome(applied, failed, runs) == FirstPass(undo)
      ensures runs == Reversed(undo, |undo|)
    {
      ghost var stack := undo;
      ghost var done: seq<nat> := [];
      failed := [];
      var n := |undo|;
      while n > 0
        invariant 0 <= n <= |stack| && undo == stack
        invariant AllRunnable(stack, done)
        invariant done + Reversed(stack, n) == Reversed(stack, |stack|)
        invariant Outcome(applied, failed, runs) == Sweep(stack, {}, done)
      {
        n := n - 1;
        if undo[n].Undo? {
          SweepAppend(stack, {}, done, n);
          ReversedStep(stack, done, n);
          done := done + [n];
          var ok := RunUndo(n);
          if !ok { failed := failed + [n]; }
        }
      }
      assert done == Reversed(stack, |stack|);
      SweepRuns(stack, {}, done);
    }

    method RetryPass(failed: seq<nat>)
      requires AllRunnable(undo, failed)
      modifies this`applied, this`runs
      ensures applied == Sweep(undo, old(applied), failed).applied
      ensures runs == old(runs) + failed
    {
      var k := 0;
      while k < |failed|
        invariant 0 <= k <= |failed|
        invariant applied == Sweep(undo, old(applied), failed[..k]).applied
        invariant runs == old(runs) + failed[..k]
      {
        assert failed[..k + 1] == failed[..k] + [failed[k]];
        SweepAppend(undo, old(applied), failed[..k], failed[k]);
        var ok := RunUndo(failed[k]);
        k := k + 1;
      }
      assert failed[..k] == failed;
    }
  }
}
