/**
 Impersonated senders: `ImpersonationState` (src/impersonation.rs), the validator that feeds its side table
 (src/pool.rs), the payload conversion that reads it (src/evm.rs) and the RPCs that drop transactions
 (src/anvil_api.rs). The pool is a map by hash; validation with insertion, each drop RPC, and a new head with
 the pool's removal of what it mined are one step each.
 */
module Senders {
  import opened Words

  type TxHash = nat

  /** A pooled transaction: the sender the pool goes by, and the one its signature recovers to, if any. A
      placeholder signature recovers to nobody or to a stranger. */
  datatype Tx = Tx(hash: TxHash, sender: Address, recovered: Option<Address>)

  datatype Sys = Sys(accounts: set<Address>, auto: bool, txSenders: map<TxHash, Address>, pool: map<TxHash, Tx>)

  const FRESH := Sys({}, false, map[], map[])

  predicate Impersonated(s: Sys, a: Address) { s.auto || a in s.accounts }

  /** The sender execution gives a transaction: the table's, else the recovered one. */
  function Convert(s: Sys, tx: Tx): Option<Address> {
    if tx.hash in s.txSenders then Some(s.txSenders[tx.hash]) else tx.recovered
  }

  // ----- the steps

  /** `admitted` is the verdict on a sender not impersonated, `room` whether the pool takes a valid one. */
  datatype Step =
    | Impersonate(account: Address) | StopImpersonating(account: Address) | AutoImpersonate(enabled: bool)
    | Submit(tx: Tx, admitted: bool, room: bool)
    | Drop(hash: TxHash) | DropAll | RemoveBySender(account: Address)
    | NewHead(mined: seq<TxHash>) | Evict(hashes: set<TxHash>)

  function Apply(s: Sys, step: Step): Sys {
    match step
    case Impersonate(a) => s.(accounts := s.accounts + {a})
    case StopImpersonating(a) => s.(accounts := s.accounts - {a})
    case AutoImpersonate(enabled) => s.(auto := enabled)
    case Submit(tx, admitted, room) =>
      var remembered := if Impersonated(s, tx.sender) then s.(txSenders := s.txSenders[tx.hash := tx.sender]) else s;
      if Inserted(s, tx, admitted, room) then remembered.(pool := s.pool[tx.hash := tx]) else remembered
    case Drop(h) => if h in s.pool then Forget(s.(pool := s.pool - {h}), {h}) else s
    case DropAll => Forget(s.(pool := map[]), s.pool.Keys)
    case RemoveBySender(a) => Forget(s.(pool := s.pool - SentBy(s.pool, a)), SentBy(s.pool, a))
    case NewHead(mined) => Forget(s.(pool := s.pool - SeqSet(mined)), SeqSet(mined))
    case Evict(hashes) => s.(pool := s.pool - hashes)
  }

  /** A hash the pool already holds is refused as known, whatever the verdict. */
  predicate Inserted(s: Sys, tx: Tx, admitted: bool, room: bool) {
    tx.hash !in s.pool && (Impersonated(s, tx.sender) || admitted) && room
  }

  function Forget(s: Sys, hashes: set<TxHash>): Sys {
    s.(txSenders := s.txSenders - hashes)
  }

  function SentBy(pool: map<TxHash, Tx>, a: Address): set<TxHash> {
    set h | h in pool && pool[h].sender == a
  }

  function SeqSet(hashes: seq<TxHash>): set<TxHash> {
    set h | h in hashes
  }

  // ----- the objects

  class ImpersonationState {
    var accounts: set<Address>
    var auto: bool
    var txSenders: map<TxHash, Address>

    constructor ()
      ensures accounts == {} && !auto && txSenders == map[]
    {
      accounts, auto, txSenders := {}, false, map[];
    }

    method Impersonate(a: Address)
      modifies this`accounts
      ensures accounts == old(accounts) + {a}
    {
      accounts := accounts + {a};
    }

    method StopImpersonating(a: Address)
      modifies this`accounts
      ensures accounts == old(accounts) - {a}
    {
      accounts := accounts - {a};
    }

    method SetAutoImpersonate(enabled: bool)
      modifies this`auto
      ensures auto == enabled
    {
      auto := enabled;
    }

    method IsImpersonated(a: Address) returns (yes: bool)
      ensures yes <==> auto || a in accounts
    {
      yes := auto || a in accounts;
    }

    method RememberTxSender(hash: TxHash, sender: Address)
      modifies this`txSenders
      ensures txSenders == old(txSenders)[hash := sender]
    {
      txSenders := txSenders[hash := sender];
    }

    method ForgetTxSender(hash: TxHash)
      modifies this`txSenders
      ensures txSenders == old(txSenders) - {hash}
    {
      txSenders := txSenders - {hash};
    }

    method ForgetTxSenders(hashes: seq<TxHash>)
      modifies this`txSenders
      ensures txSenders == old(txSenders) - SeqSet(hashes)
    {
      for k := 0 to |hashes|
        invariant txSenders == old(txSenders) - SeqSet(hashes[..k])
      {
        ForgetTxSender(hashes[k]);
        assert SeqSet(hashes[..k + 1]) == SeqSet(hashes[..k]) + {hashes[k]};
      }
      assert hashes[..|hashes|] == hashes;
    }

    method TxSender(hash: TxHash) returns (sender: Option<Address>)
      ensures sender == if hash in txSenders then Some(txSenders[hash]) else None
    {
      sender := if hash in txSenders then Some(txSenders[hash]) else None;
    }
  }

  /** The pool with its validator, and the RPCs that act on both. */
  class AnvilPool {
    const state: ImpersonationState
    var pool: map<TxHash, Tx>

    function View(): Sys
      reads this, state
    {
      Sys(state.accounts, state.auto, state.txSenders, pool)
    }

    constructor (state: ImpersonationState)
      ensures this.state == state && pool == map[]
    {
      this.state := state;
      pool := map[];
    }

    /** `anvil_impersonateAccount` and its two siblings. */
    method ImpersonateAccount(a: Address)
      modifies state`accounts
      ensures View() == Apply(old(View()), Step.Impersonate(a))
    {
      state.Impersonate(a);
    }

    method StopImpersonatingAccount(a: Address)
      modifies state`accounts
      ensures View() == Apply(old(View()), Step.StopImpersonating(a))
    {
      state.StopImpersonating(a);
    }

    method AutoImpersonateAccount(enabled: bool)
      modifies state`auto
      ensures View() == Apply(old(View()), AutoImpersonate(enabled))
    {
      state.SetAutoImpersonate(enabled);
    }

    /** `validate_transaction`: an impersonated sender is remembered and waved through. */
    method Validate(tx: Tx, admitted: bool) returns (valid: bool)
      modifies state`txSenders
      ensures valid == (Impersonated(old(View()), tx.sender) || admitted)
      ensures state.txSenders == if Impersonated(old(View()), tx.sender) then old(state.txSenders)[tx.hash := tx.sender]
                                 else old(state.txSenders)
    {
      var impersonated := state.IsImpersonated(tx.sender);
      if impersonated {
        state.RememberTxSender(tx.hash, tx.sender);
        return true;
      }
      return admitted;
    }

    method SubmitTransaction(tx: Tx, admitted: bool, room: bool) returns (inserted: bool)
      modifies this, state
      ensures View() == Apply(old(View()), Submit(tx, admitted, room))
      ensures inserted <==>
                && tx.hash !in old(pool) && room
                && (admitted || old(state.auto) || tx.sender in old(state.accounts))
      ensures pool == if inserted then old(pool)[tx.hash := tx] else old(pool)
      ensures state.auto == old(state.auto) && state.accounts == old(state.accounts)
    {
      var valid := Validate(tx, admitted);
      inserted := valid && tx.hash !in pool && room;
      if inserted {
        pool := pool[tx.hash := tx];
      }
    }

    method DropTransaction(hash: TxHash) returns (dropped: Option<TxHash>)
      modifies this, state
      ensures View() == Apply(old(View()), Drop(hash))
      ensures pool == old(pool) - {hash}
      ensures state.txSenders == if hash in old(pool) then old(state.txSenders) - {hash} else old(state.txSenders)
      ensures dropped == if hash in old(pool) then Some(hash) else None
    {
      if hash !in pool {
        return None;
      }
      pool := pool - {hash};
      state.ForgetTxSender(hash);
      return Some(hash);
    }

    method DropAllTransactions()
      modifies this, state
      ensures View() == Apply(old(View()), DropAll)
      ensures pool == map[] && state.txSenders == old(state.txSenders) - old(pool).Keys
    {
      var hashes := SetToSeq(pool.Keys);
      if |hashes| > 0 {
        pool := pool - SeqSet(hashes);
        state.ForgetTxSenders(hashes);
      }
      assert pool == map[];
    }

    method RemovePoolTransactions(a: Address)
      modifies this, state
      ensures View() == Apply(old(View()), RemoveBySender(a))
      ensures forall h :: h in pool <==> h in old(pool) && old(pool)[h].sender != a
      ensures forall h :: h in pool ==> pool[h] == old(pool)[h]
      ensures forall h :: h in state.txSenders <==>
                          h in old(state.txSenders) && !(h in old(pool) && old(pool)[h].sender == a)
      ensures forall h :: h in state.txSenders ==> state.txSenders[h] == old(state.txSenders)[h]
    {
      var removed := SetToSeq(SentBy(pool, a));
      pool := pool - SeqSet(removed);
      state.ForgetTxSenders(removed);
    }

    method OnNewHeadBlock(mined: seq<TxHash>)
      modifies this, state
      ensures View() == Apply(old(View()), NewHead(mined))
      ensures forall h :: h in pool <==> h in old(pool) && h !in mined
      ensures forall h :: h in pool ==> pool[h] == old(pool)[h]
      ensures forall h :: h in state.txSenders <==> h in old(state.txSenders) && h !in mined
      ensures forall h :: h in state.txSenders ==> state.txSenders[h] == old(state.txSenders)[h]
    {
      state.ForgetTxSenders(mined);
      pool := pool - SeqSet(mined);
    }

    /** The payload conversion of one transaction. */
    method ConvertTransaction(tx: Tx) returns (signer: Option<Address>)
      ensures signer == Convert(View(), tx)
    {
      signer := state.TxSender(tx.hash);
      if signer.None? {
        signer := tx.recovered;
      }
    }
  }

  method SetToSeq(hashes: set<TxHash>) returns (listed: seq<TxHash>)
    ensures SeqSet(listed) == hashes
  {
    listed := [];
    var todo := hashes;
    while todo != {}
      invariant todo <= hashes && SeqSet(listed) == hashes - todo
      decreases |todo|
    {
      var h :| h in todo;
      todo := todo - {h};
      assert SeqSet(listed + [h]) == SeqSet(listed) + {h};
      listed := listed + [h];
    }
  }

  // ----- what the history of a run says of its last state

  function Run(s: Sys, steps: seq<Step>): Sys {
    if steps == [] then s else Apply(Run(s, steps[..|steps| - 1]), steps[|steps| - 1])
  }

  lemma RunOfPrefix(steps: seq<Step>, k: nat)
    requires k < |steps|
    ensures Run(FRESH, steps[..k + 1]) == Apply(Run(FRESH, steps[..k]), steps[k])
  {
    assert steps[..k + 1][..k] == steps[..k];
  }

  /** The step takes a pooled transaction out: dropped, one of the sender's, mined, or evicted. */
  predicate Removes(step: Step, tx: Tx) {
    match step
    case Drop(h) => tx.hash == h
    case DropAll => true
    case RemoveBySender(a) => tx.sender == a
    case NewHead(mined) => tx.hash in mined
    case Evict(hashes) => tx.hash in hashes
    case _ => false
  }

  /** Step j got tx into the pool: its hash was not there, there was room, and it was admitted or its sender
      impersonated; and no step since, up to the k-th, took it out. */
  ghost predicate PooledSince(steps: seq<Step>, tx: Tx, j: nat, k: nat)
    requires k <= |steps|
  {
    && j < k && Enters(Run(FRESH, steps[..j]), steps[j], tx)
    && forall i :: j < i < k ==> !Removes(steps[i], tx)
  }

  predicate Enters(s: Sys, step: Step, tx: Tx) {
    && step.Submit? && step.tx == tx && step.room && tx.hash !in s.pool
    && (step.admitted || s.auto || tx.sender in s.accounts)
  }

  ghost predicate Pooled(steps: seq<Step>, tx: Tx, k: nat)
    requires k <= |steps|
  {
    exists j: nat :: PooledSince(steps, tx, j, k)
  }

  lemma PooledOneMore(steps: seq<Step>, tx: Tx, k: nat)
    requires k < |steps|
    ensures Pooled(steps, tx, k + 1) <==>
            PooledSince(steps, tx, k, k + 1) || (Pooled(steps, tx, k) && !Removes(steps[k], tx))
  {
    if Pooled(steps, tx, k + 1) {
      var j: nat :| PooledSince(steps, tx, j, k + 1);
      assert j < k ==> PooledSince(steps, tx, j, k);
    }
    if Pooled(steps, tx, k) && !Removes(steps[k], tx) {
      var j: nat :| PooledSince(steps, tx, j, k);
      assert PooledSince(steps, tx, j, k + 1);
    }
  }

  /** A step puts a transaction in the pool, takes it out, or leaves it. */
  lemma StepMovesPool(s: Sys, step: Step, tx: Tx)
    requires forall h :: h in s.pool ==> s.pool[h].hash == h
    ensures var s' := Apply(s, step);
            && (forall h :: h in s'.pool ==> s'.pool[h].hash == h)
            && (Holds(s', tx) <==> Enters(s, step, tx) || (Holds(s, tx) && !Removes(step, tx)))
  {}

  predicate Holds(s: Sys, tx: Tx) {
    tx.hash in s.pool && s.pool[tx.hash] == tx
  }

  /** What is pooled: a transaction is in the pool exactly if a submission got it in and no drop, removal of its
      sender, new head or eviction has taken it out since. */
  lemma {:induction false} PooledExactly(steps: seq<Step>, tx: Tx, k: nat)
    requires k <= |steps|
    ensures Holds(Run(FRESH, steps[..k]), tx) <==> Pooled(steps, tx, k)
    ensures forall h :: h in Run(FRESH, steps[..k]).pool ==> Run(FRESH, steps[..k]).pool[h].hash == h
  {
    if k > 0 {
      PooledExactly(steps, tx, k - 1);
      RunOfPrefix(steps, k - 1);
      StepMovesPool(Run(FRESH, steps[..k - 1]), steps[k - 1], tx);
      PooledOneMore(steps, tx, k - 1);
    }
  }

  /** The step forgets the sender of a hash: it takes out the pooled transaction, or mines the hash. An
      eviction, of which the validator hears nothing, forgets none. */
  predicate Forgets(s: Sys, step: Step, h: TxHash) {
    match step
    case NewHead(mined) => h in mined
    case Evict(_) => false
    case _ => h in s.pool && s.pool[h].hash == h && Removes(step, s.pool[h])
  }

  /** The sender of the latest impersonated submission with the hash, refused ones included, unless forgotten
      since. */
  function LatestSender(steps: seq<Step>, h: TxHash): Option<Address> {
    if steps == [] then None
    else
      var front, step := steps[..|steps| - 1], steps[|steps| - 1];
      var s := Run(FRESH, front);
      if step.Submit? && step.tx.hash == h && (s.auto || step.tx.sender in s.accounts) then Some(step.tx.sender)
      else if Forgets(s, step, h) then None
      else LatestSender(front, h)
  }

  lemma StepMovesTable(s: Sys, step: Step, h: TxHash)
    requires forall x :: x in s.pool ==> s.pool[x].hash == x
    ensures var s' := Apply(s, step);
            TableAt(s', h) ==
              if step.Submit? && step.tx.hash == h && (s.auto || step.tx.sender in s.accounts)
              then Some(step.tx.sender)
              else if Forgets(s, step, h) then None else TableAt(s, h)
  {}

  function TableAt(s: Sys, h: TxHash): Option<Address> {
    if h in s.txSenders then Some(s.txSenders[h]) else None
  }

  /** What is recorded: the side table holds exactly the latest impersonated sender not forgotten since. */
  lemma {:induction false} TableIsLatestSender(steps: seq<Step>, h: TxHash)
    ensures TableAt(Run(FRESH, steps), h) == LatestSender(steps, h)
  {
    if steps != [] {
      var front := steps[..|steps| - 1];
      TableIsLatestSender(front, h);
      PooledExactly(front, Tx(h, 0, None), |front|);
      assert front[..|front|] == front;
      StepMovesTable(Run(FRESH, front), steps[|steps| - 1], h);
    }
  }

  /** Whether the account was last impersonated or stopped. */
  function LastSaid(steps: seq<Step>, a: Address): bool {
    if steps == [] then false
    else
      match steps[|steps| - 1]
      case Impersonate(x) => x == a || LastSaid(steps[..|steps| - 1], a)
      case StopImpersonating(x) => x != a && LastSaid(steps[..|steps| - 1], a)
      case _ => LastSaid(steps[..|steps| - 1], a)
  }

  function LastAuto(steps: seq<Step>): bool {
    if steps == [] then false
    else if steps[|steps| - 1].AutoImpersonate? then steps[|steps| - 1].enabled
    else LastAuto(steps[..|steps| - 1])
  }

  /** Who is impersonated: an account last impersonated rather than stopped, or everybody while it is automatic. */
  lemma {:induction false} ImpersonatedExactly(steps: seq<Step>, a: Address)
    ensures Impersonated(Run(FRESH, steps), a) <==> LastAuto(steps) || LastSaid(steps, a)
    ensures a in Run(FRESH, steps).accounts <==> LastSaid(steps, a)
    ensures Run(FRESH, steps).auto == LastAuto(steps)
  {
    if steps != [] { ImpersonatedExactly(steps[..|steps| - 1], a); }
  }

  // ----- agreement

  /** Execution attributes every pooled transaction to the pool's sender. */
  ghost predicate Agreement(s: Sys) {
    forall h :: h in s.pool ==> s.pool[h].hash == h && Convert(s, s.pool[h]) == Some(s.pool[h].sender)
  }

  /** What a submission must meet: an impersonated one must not contradict the pooled transaction with its
      hash; any other that gets in must have its hash recorded for its own sender, or else be signed by it. */
  predicate SafeSubmit(s: Sys, step: Step) {
    step.Submit? ==>
      if Impersonated(s, step.tx.sender) then
        step.tx.hash in s.pool ==> s.pool[step.tx.hash].sender == step.tx.sender
      else
        Inserted(s, step.tx, step.admitted, step.room) ==>
          if step.tx.hash in s.txSenders then s.txSenders[step.tx.hash] == step.tx.sender
          else step.tx.recovered == Some(step.tx.sender)
  }

  /** One step from agreement keeps agreement exactly when its submission is safe; stopping impersonation,
      drops, mining and eviction always do. */
  lemma StepKeepsAgreementExactly(s: Sys, step: Step)
    requires Agreement(s)
    ensures Agreement(Apply(s, step)) <==> SafeSubmit(s, step)
  {
    if step.Submit? {
      SubmitKeepsAgreementExactly(s, step.tx, step.admitted, step.room);
    }
  }

  lemma SubmitKeepsAgreementExactly(s: Sys, tx: Tx, admitted: bool, room: bool)
    requires Agreement(s)
    ensures Agreement(Apply(s, Submit(tx, admitted, room))) <==> SafeSubmit(s, Submit(tx, admitted, room))
  {
    var s' := Apply(s, Submit(tx, admitted, room));
    if !SafeSubmit(s, Submit(tx, admitted, room)) {
      assert tx.hash in s'.pool && Convert(s', s'.pool[tx.hash]) != Some(s'.pool[tx.hash].sender);
    }
  }

  /** Agreement at every moment of a run, in terms of its submissions: whatever the run, execution and pool
      agree after each of its steps if and only if each submission is safe in the state it meets. */
  lemma AgreementThroughoutExactly(steps: seq<Step>)
    ensures (forall k :: 0 <= k <= |steps| ==> Agreement(Run(FRESH, steps[..k]))) <==>
            (forall k :: 0 <= k < |steps| ==> SafeSubmit(Run(FRESH, steps[..k]), steps[k]))
  {
    if forall k :: 0 <= k <= |steps| ==> Agreement(Run(FRESH, steps[..k])) {
      forall k | 0 <= k < |steps| ensures SafeSubmit(Run(FRESH, steps[..k]), steps[k]) {
        RunOfPrefix(steps, k);
        assert Agreement(Run(FRESH, steps[..k + 1]));
        StepKeepsAgreementExactly(Run(FRESH, steps[..k]), steps[k]);
      }
    }
    if forall k :: 0 <= k < |steps| ==> SafeSubmit(Run(FRESH, steps[..k]), steps[k]) {
      forall k | 0 <= k <= |steps| ensures Agreement(Run(FRESH, steps[..k])) {
        SafeSubmitsAgree(steps, k);
      }
    }
  }

  lemma {:induction false} SafeSubmitsAgree(steps: seq<Step>, n: nat)
    requires n <= |steps|
    requires forall k :: 0 <= k < n ==> SafeSubmit(Run(FRESH, steps[..k]), steps[k])
    ensures Agreement(Run(FRESH, steps[..n]))
  {
    if n > 0 {
      SafeSubmitsAgree(steps, n - 1);
      RunOfPrefix(steps, n - 1);
      StepKeepsAgreementExactly(Run(FRESH, steps[..n - 1]), steps[n - 1]);
    }
  }

  /** The hypotheses on a submission, which look neither at pool nor at table: its hash determines its sender, and a
      transaction that gets in without impersonation is genuinely signed. */
  ghost predicate Honest(s: Sys, step: Step, senderOf: TxHash -> Address) {
    step.Submit? ==>
      && step.tx.sender == senderOf(step.tx.hash)
      && (Impersonated(s, step.tx.sender) || !step.admitted || step.tx.recovered == Some(step.tx.sender))
  }

  ghost predicate HonestRun(s: Sys, steps: seq<Step>, senderOf: TxHash -> Address) {
    steps != [] ==>
      var front := steps[..|steps| - 1];
      HonestRun(s, front, senderOf) && Honest(Run(s, front), steps[|steps| - 1], senderOf)
  }

  /** Table and pool both follow the hash. */
  ghost predicate FollowsHash(s: Sys, senderOf: TxHash -> Address) {
    && (forall h :: h in s.txSenders ==> s.txSenders[h] == senderOf(h))
    && (forall h :: h in s.pool ==> s.pool[h].sender == senderOf(h))
  }

  lemma HonestIsSafe(s: Sys, step: Step, senderOf: TxHash -> Address)
    requires FollowsHash(s, senderOf) && Honest(s, step, senderOf)
    ensures SafeSubmit(s, step) && FollowsHash(Apply(s, step), senderOf)
  {}

  /** Sender agreement: if equal hashes mean equal senders and transactions admitted without impersonation
      are genuinely signed, then after any run of submissions, impersonation on and off, drops, new heads and
      evictions, execution attributes every transaction still pooled to the pool's sender. */
  lemma {:induction false} SenderAgreement(steps: seq<Step>, senderOf: TxHash -> Address)
    requires HonestRun(FRESH, steps, senderOf)
    ensures Agreement(Run(FRESH, steps)) && FollowsHash(Run(FRESH, steps), senderOf)
  {
    if steps != [] {
      var front, step := steps[..|steps| - 1], steps[|steps| - 1];
      SenderAgreement(front, senderOf);
      HonestIsSafe(Run(FRESH, front), step, senderOf);
      StepKeepsAgreementExactly(Run(FRESH, front), step);
    }
  }

  /** The step leaves no entry behind: nothing is evicted behind the validator's back, and an impersonated
      submission gets in or was in already. */
  predicate Tidy(s: Sys, step: Step) {
    match step
    case Evict(hashes) => s.pool.Keys * s.txSenders.Keys !! hashes
    case Submit(tx, _, room) => Impersonated(s, tx.sender) ==> tx.hash in s.pool || room
    case _ => true
  }

  /** The side table lists only pooled transactions. */
  ghost predicate Tight(s: Sys) {
    s.txSenders.Keys <= s.pool.Keys
  }

  /** A step keeps the table tight exactly when it is tidy: every drop, removal and new head forgets what it
      takes out of the pool. */
  lemma StepKeepsTightExactly(s: Sys, step: Step)
    requires Tight(s)
    ensures Tight(Apply(s, step)) <==> Tidy(s, step)
  {
    var s' := Apply(s, step);
    match step
    case Evict(hashes) =>
      if !Tidy(s, step) {
        var h :| h in s.pool.Keys * s.txSenders.Keys && h in hashes;
        assert h in s'.txSenders && h !in s'.pool;
      } else {
        forall h | h in s.txSenders ensures h in s'.pool { assert h in s.pool.Keys * s.txSenders.Keys; }
      }
    case Submit(tx, _, _) =>
      if !Tidy(s, step) { assert tx.hash in s'.txSenders && tx.hash !in s'.pool; }
    case _ =>
  }

  /** The table at every moment of a run: it lists only pooled transactions after each step if and only if
      every step is tidy in the state it meets. */
  lemma TightThroughoutExactly(steps: seq<Step>)
    ensures (forall k :: 0 <= k <= |steps| ==> Tight(Run(FRESH, steps[..k]))) <==>
            (forall k :: 0 <= k < |steps| ==> Tidy(Run(FRESH, steps[..k]), steps[k]))
  {
    if forall k :: 0 <= k <= |steps| ==> Tight(Run(FRESH, steps[..k])) {
      forall k | 0 <= k < |steps| ensures Tidy(Run(FRESH, steps[..k]), steps[k]) {
        RunOfPrefix(steps, k);
        assert Tight(Run(FRESH, steps[..k + 1]));
        StepKeepsTightExactly(Run(FRESH, steps[..k]), steps[k]);
      }
    }
    if forall k :: 0 <= k < |steps| ==> Tidy(Run(FRESH, steps[..k]), steps[k]) {
      forall k | 0 <= k <= |steps| ensures Tight(Run(FRESH, steps[..k])) {
        TidyStepsStayTight(steps, k);
      }
    }
  }

  lemma {:induction false} TidyStepsStayTight(steps: seq<Step>, n: nat)
    requires n <= |steps|
    requires forall k :: 0 <= k < n ==> Tidy(Run(FRESH, steps[..k]), steps[k])
    ensures Tight(Run(FRESH, steps[..n]))
  {
    if n > 0 {
      TidyStepsStayTight(steps, n - 1);
      RunOfPrefix(steps, n - 1);
      StepKeepsTightExactly(Run(FRESH, steps[..n - 1]), steps[n - 1]);
    }
  }

  /** Without the hash hypothesis sender agreement fails: the placeholder signature is constant, so one body sent by two
      impersonated accounts has one hash, and the refused copy takes over the first one's table entry. */
  lemma SharedHashBreaksAgreement()
    ensures var first, copy := Submit(Tx(7, 1, None), true, true), Submit(Tx(7, 2, None), true, true);
            var steps := [AutoImpersonate(true), first, copy];
            && Run(FRESH, steps).pool == map[7 := Tx(7, 1, None)]
            && Convert(Run(FRESH, steps), Tx(7, 1, None)) == Some(2)
  {
    var a, b, c := AutoImpersonate(true), Submit(Tx(7, 1, None), true, true), Submit(Tx(7, 2, None), true, true);
    assert [a, b, c][..2] == [a, b] && [a, b][..1] == [a] && [a][..0] == [];
    assert Run(FRESH, [a]) == FRESH.(auto := true);
    assert Run(FRESH, [a, b]).pool == map[7 := Tx(7, 1, None)];
  }

  /** Nor without genuine signatures: a request signed with the placeholder while its account was impersonated
      but validated after impersonation stopped is pooled without a table entry. */
  lemma StoppedBeforeValidationBreaksAgreement()
    ensures var tx := Tx(7, 1, None);
            var steps := [Impersonate(1), StopImpersonating(1), Submit(tx, true, true)];
            tx.hash in Run(FRESH, steps).pool && Convert(Run(FRESH, steps), tx) == None
  {
    var a, b, c := Impersonate(1), StopImpersonating(1), Submit(Tx(7, 1, None), true, true);
    assert [a, b, c][..2] == [a, b] && [a, b][..1] == [a] && [a][..0] == [];
    assert Run(FRESH, [a]) == FRESH.(accounts := {1});
    assert Run(FRESH, [a, b]).accounts == {};
  }
}
