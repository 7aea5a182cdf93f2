/** What is pending at the end of a run, and which triggers followed, read off the steps of the run. */
module MiningHistory {
  import opened Words
  import opened MiningSystem
  import opened MiningTheorems

  /** The step takes a transaction out of the pool: evicted, or built into a block. */
  predicate TakesOut(step: Step, tx: nat) {
    step == Evict(tx) || (step.Build? && tx in step.included)
  }

  /** Step j inserted tx, n triggers after boot, and none of the steps up to the k-th took it out. */
  ghost predicate ArrivedAt(states: seq<Sys>, steps: seq<Step>, tx: nat, n: nat, j: nat, k: nat)
    requires k <= |steps| < |states|
  {
    && j < k && steps[j] == Insert(tx) && states[j].mem.adds == n
    && forall i :: j < i < k ==> !TakesOut(steps[i], tx)
  }

  ghost predicate Arrived(states: seq<Sys>, steps: seq<Step>, tx: nat, n: nat, k: nat)
    requires k <= |steps| < |states|
  {
    exists j: nat :: ArrivedAt(states, steps, tx, n, j, k)
  }

  lemma StepMovesPool(p: Sys, step: Step, q: Sys, tx: nat)
    requires Moves(p, step, q)
    ensures step == Insert(tx) ==> tx !in p.pool && tx in q.pool && q.pool[tx] == p.mem.adds
    ensures step != Insert(tx) ==> (tx in q.pool <==> tx in p.pool && !TakesOut(step, tx))
    ensures step != Insert(tx) && tx in q.pool ==> q.pool[tx] == p.pool[tx]
  {
    if step.RpcStep? { CallsLeavePool(p, step.id); }
  }

  lemma CallsLeavePool(s: Sys, id: nat)
    requires Linked(s) && Enabled(s, RpcStep(id))
    ensures ApplyRpc(s, id).pool == s.pool
  {}

  lemma ArrivedOneMore(states: seq<Sys>, steps: seq<Step>, tx: nat, n: nat, k: nat)
    requires k < |steps| < |states| && steps[k] != Insert(tx)
    ensures Arrived(states, steps, tx, n, k + 1) <==> Arrived(states, steps, tx, n, k) && !TakesOut(steps[k], tx)
  {
    if Arrived(states, steps, tx, n, k + 1) {
      var j: nat :| ArrivedAt(states, steps, tx, n, j, k + 1);
      assert ArrivedAt(states, steps, tx, n, j, k);
    }
    if Arrived(states, steps, tx, n, k) && !TakesOut(steps[k], tx) {
      var j: nat :| ArrivedAt(states, steps, tx, n, j, k);
      assert ArrivedAt(states, steps, tx, n, j, k + 1);
    }
  }

  /** An insertion of a transaction not pending means that none before it is still in force. */
  lemma ArrivedNow(states: seq<Sys>, steps: seq<Step>, tx: nat, n: nat, k: nat)
    requires k < |steps| < |states| && steps[k] == Insert(tx)
    requires forall m: nat :: !Arrived(states, steps, tx, m, k)
    ensures Arrived(states, steps, tx, n, k + 1) <==> n == states[k].mem.adds
  {
    assert !Arrived(states, steps, tx, n, k);
    if Arrived(states, steps, tx, n, k + 1) {
      var j: nat :| ArrivedAt(states, steps, tx, n, j, k + 1);
      if j < k {
        assert ArrivedAt(states, steps, tx, n, j, k);
      }
    }
    if n == states[k].mem.adds { assert ArrivedAt(states, steps, tx, n, k, k + 1); }
  }

  /** Pending, from boot: a transaction is in the pool, with the number of triggers issued before it, exactly if
      it was inserted then and has been neither built nor evicted since. */
  lemma {:induction false} PendingExactly(boot: Sys, states: seq<Sys>, steps: seq<Step>, b: Sys,
                                          tx: nat, n: nat, k: nat)
    requires Fresh(boot, |boot.mem.streams|) && Run(boot, states, steps, b) && k <= |steps|
    ensures tx in states[k].pool && states[k].pool[tx] == n <==> Arrived(states, steps, tx, n, k)
    decreases k
  {
    if k > 0 {
      assert MovesAt(states, steps, k - 1);
      StepMovesPool(states[k - 1], steps[k - 1], states[k], tx);
      if steps[k - 1] == Insert(tx) {
        var p := k - 1;
        forall m: nat ensures !Arrived(states, steps, tx, m, p) {
          PendingExactly(boot, states, steps, b, tx, m, p);
        }
        ArrivedNow(states, steps, tx, n, k - 1);
      } else {
        PendingExactly(boot, states, steps, b, tx, n, k - 1);
        ArrivedOneMore(states, steps, tx, n, k - 1);
      }
    }
  }

  /** The counter's history grows only at the steps that issue. */
  lemma {:induction false} IssuedBetween(a: Sys, states: seq<Sys>, steps: seq<Step>, b: Sys, j: nat, k: nat)
    requires Run(a, states, steps, b) && j <= k <= |steps| && states[j].mem.adds < states[k].mem.adds
    ensures exists i: nat :: j <= i < k && Issues(states[i], steps[i])
    decreases k
  {
    if j < k {
      assert MovesAt(states, steps, k - 1);
      IssuesAdds(states[k - 1], steps[k - 1]);
      if !Issues(states[k - 1], steps[k - 1]) { IssuedBetween(a, states, steps, b, j, k - 1); }
    }
  }

  /** The handshake in terms of the run alone: once things settle with automine on, for every transaction
      pending some trigger was issued after the step that inserted it. */
  lemma EveryPendingWasAnswered(boot: Sys, states: seq<Sys>, steps: seq<Step>, s: Sys, tx: nat)
    requires Fresh(boot, |boot.mem.streams|) && Run(boot, states, steps, s)
    requires Settled(s) && s.mode.Automine? && tx in s.pool
    ensures exists j: nat, i: nat ::
              && ArrivedAt(states, steps, tx, s.pool[tx], j, |steps|)
              && j < i < |steps| && Issues(states[i], steps[i])
  {
    AutomineHandshake(boot, states, steps, s);
    PendingExactly(boot, states, steps, s, tx, s.pool[tx], |steps|);
    var j: nat :| ArrivedAt(states, steps, tx, s.pool[tx], j, |steps|);
    IssuedBetween(boot, states, steps, s, j, |steps|);
    var i: nat :| j <= i < |steps| && Issues(states[i], steps[i]);
    assert i != j;
  }
}
