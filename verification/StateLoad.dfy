/** Loading a dump, and the balance top-ups, of src/anvil_api.rs: the RPC helpers over overlay and base. */
module StateLoad {
  import opened Words
  import opened Overlay
  import opened StateDump

  // ----- the RPC helpers

  function AccountBalance(t: Tables, base: Base, a: Address): u256 {
    EntryOf(t, a).balance.UnwrapOr(InnerAccount(base, a).UnwrapOr(NO_ACCOUNT).balance)
  }

  function AccountNonce(t: Tables, base: Base, a: Address): u64 {
    EntryOf(t, a).nonce.UnwrapOr(InnerAccount(base, a).UnwrapOr(NO_ACCOUNT).nonce)
  }

  /** The helpers read what the provider reads. */
  lemma HelpersAgree(t: Tables, base: Base, a: Address)
    ensures AccountBalance(t, base, a) == BasicAccount(t, base, a).UnwrapOr(NO_ACCOUNT).balance
    ensures AccountNonce(t, base, a) == BasicAccount(t, base, a).UnwrapOr(NO_ACCOUNT).nonce
  {}

  /** A dump with the number of the last block; refused for historical states, failed on a failing read. */
  datatype DumpResult = Dumped(records: Records, best: u64) | Refused | Failed

  /** The node's view of the base provider: reading an account in `failing` is an error. The balance helper
      looks at the override first, the nonce helper at the base first. */
  class AnvilRpc {
    const state: AnvilState
    const base: Base
    const failing: set<Address>

    constructor (state: AnvilState, base: Base, failing: set<Address>)
      ensures this.state == state && this.base == base && this.failing == failing
    {
      this.state, this.base, this.failing := state, base, failing;
    }

    method ReadBalance(a: Address) returns (r: Option<u256>)
      ensures r.Some? ==> r.value == AccountBalance(state.View(), base, a)
      ensures r.None? <==> a in failing && EntryOf(state.View(), a).balance.None?
    {
      if a in state.accounts && state.accounts[a].balance.Some? {
        return Some(state.accounts[a].balance.value);
      }
      if a in failing {
        return None;
      }
      return Some(InnerAccount(base, a).UnwrapOr(NO_ACCOUNT).balance);
    }

    method ReadNonce(a: Address) returns (r: Option<u64>)
      ensures r.Some? ==> r.value == AccountNonce(state.View(), base, a)
      ensures r.None? <==> a in failing
    {
      if a in failing {
        return None;
      }
      var nonce := InnerAccount(base, a).UnwrapOr(NO_ACCOUNT).nonce;
      if a in state.accounts && state.accounts[a].nonce.Some? {
        nonce := state.accounts[a].nonce.value;
      }
      return Some(nonce);
    }

    method AddBalance(a: Address, amount: u256) returns (ok: bool)
      modifies state
      ensures ok <==> !(a in failing && EntryOf(old(state.View()), a).balance.None?)
      ensures state.View() == AfterTopUp(old(state.View()), base, failing, a, amount)
      ensures ok ==> AccountBalance(state.View(), base, a) ==
                     SatU256(AccountBalance(old(state.View()), base, a) + amount)
      ensures !ok ==> state.View() == old(state.View())
    {
      var current := ReadBalance(a);
      if current.None? {
        return false;
      }
      state.SetBalance(a, SatU256(current.value + amount));
      return true;
    }

    /** `dump_state`, given what the base provider's dump lists and the head's number, when they can be read. */
    method DumpState(preserveHistoricalStates: Option<bool>, dump: Option<seq<DumpedAccount>>, head: Option<u64>)
      returns (r: DumpResult)
      ensures r.Refused? <==> preserveHistoricalStates == Some(true)
      ensures r.Failed? <==> preserveHistoricalStates != Some(true) && (dump.None? || head.None?)
      ensures r.Dumped? ==> r.records == Merged(FromDump(dump.value), state.View()) && head == Some(r.best)
      ensures r.Dumped? && CodeTable(state.View()) && Coherent(base) && DumpOf(base, dump.value) ==>
                Agrees(r.records, state.View(), base)
    {
      if preserveHistoricalStates.UnwrapOr(false) {
        return Refused;
      }
      if dump.None? || head.None? {
        return Failed;
      }
      var records := new SerializableState(dump.value);
      records.MergeAnvilState(state);
      if CodeTable(state.View()) && Coherent(base) && DumpOf(base, dump.value) {
        DumpAgrees(state.View(), base, dump.value);
      }
      return Dumped(records.accounts, head.value);
    }

    /** Loads the records in ascending order of address. A failing base read stops it, with exactly the
        accounts below the first failing one loaded. */
    method LoadState(recs: Records) returns (ok: bool)
      modifies state
      ensures ok <==> recs.Keys !! failing
      ensures state.View() == Loaded(old(state.View()), base, Below(recs, failing))
      ensures ok ==> state.View() == Loaded(old(state.View()), base, recs)
    {
      ghost var t := state.View();
      var todo := recs.Keys;
      ghost var done: Records := map[];
      LoadedNothing(t, base);
      while todo != {}
        invariant Sweep(recs, failing, done, todo)
        invariant state.View() == Loaded(t, base, done)
        decreases |todo|
      {
        var a := Least(todo);
        var current := ReadNonce(a);
        if current.None? {
          SweepStopped(recs, failing, done, todo, a);
          return false;
        }
        LoadNext(t, done, a, recs[a], current.value);
        SweepNext(recs, failing, done, todo, a);
        todo := todo - {a};
        done := done[a := recs[a]];
      }
      SweepDone(recs, failing, done);
      return true;
    }

    method LoadNext(ghost t: Tables, ghost done: Records, a: Address, r: Record, current: u64)
      requires state.View() == Loaded(t, base, done) && a !in done
      requires current == AccountNonce(state.View(), base, a)
      modifies state
      ensures state.View() == Loaded(t, base, done[a := r])
    {
      LoadedNonce(t, base, done, a);
      LoadAccount(a, r, Max(current, r.nonce));
      LoadedOneMore(t, base, done, a, r);
    }

    method LoadAccount(a: Address, r: Record, nonce: u64)
      modifies state
      ensures state.View() == AfterLoadOne(old(state.View()), a, r, nonce)
    {
      state.SetBalance(a, r.balance);
      state.SetNonce(a, nonce);
      state.SetCode(a, r.code);
      LoadSlots(a, r.storage);
    }

    method LoadSlots(a: Address, slots: map<u256, u256>)
      requires a in state.accounts
      modifies state
      ensures state.View() == WithSlots(old(state.View()), a, slots)
    {
      ghost var t := state.View();
      var todo := slots.Keys;
      ghost var done: map<u256, u256> := map[];
      WithNoSlots(t, a);
      while todo != {}
        invariant Copied(slots, done, todo)
        invariant state.View() == WithSlots(t, a, done)
        decreases |todo|
      {
        var slot :| slot in todo;
        todo := todo - {slot};
        LoadSlot(t, a, done, slot, slots[slot]);
        CopiedOneMore(slots, done, todo, slot);
        done := done[slot := slots[slot]];
      }
      CopiedAll(slots, done);
    }

    method LoadSlot(ghost t: Tables, a: Address, ghost done: map<u256, u256>, slot: u256, word: u256)
      requires state.View() == WithSlots(t, a, done)
      modifies state
      ensures state.View() == WithSlots(t, a, done[slot := word])
    {
      state.SetStorageAt(a, slot, word);
      WithOneMoreSlot(t, a, done, slot, word);
    }
  }

  // ----- the slots of a record, in any order

  ghost predicate Copied(slots: map<u256, u256>, done: map<u256, u256>, todo: set<u256>) {
    && done.Keys <= slots.Keys && todo == slots.Keys - done.Keys
    && forall s :: s in done ==> done[s] == slots[s]
  }

  lemma CopiedOneMore(slots: map<u256, u256>, done: map<u256, u256>, todo: set<u256>, slot: u256)
    requires slot in slots && slot !in todo && Copied(slots, done, todo + {slot})
    ensures Copied(slots, done[slot := slots[slot]], todo)
  {}

  lemma CopiedAll(slots: map<u256, u256>, done: map<u256, u256>)
    requires Copied(slots, done, {})
    ensures done == slots
  {
    forall s | s in slots ensures s in done { assert s !in slots.Keys - done.Keys; }
  }

  // ----- the sweep over the records in ascending order

  ghost predicate Sweep(recs: Records, failing: set<Address>, done: Records, todo: set<Address>) {
    && done.Keys <= recs.Keys && todo == recs.Keys - done.Keys
    && (forall a :: a in done ==> done[a] == recs[a] && a !in failing)
    && (forall x, y :: x in done && y in todo ==> x < y)
  }

  lemma SweepNext(recs: Records, failing: set<Address>, done: Records, todo: set<Address>, a: Address)
    requires Sweep(recs, failing, done, todo) && a in todo && a !in failing
    requires forall x :: x in todo ==> a <= x
    ensures a in recs && Sweep(recs, failing, done[a := recs[a]], todo - {a})
  {}

  lemma SweepStopped(recs: Records, failing: set<Address>, done: Records, todo: set<Address>, a: Address)
    requires Sweep(recs, failing, done, todo) && a in todo && a in failing
    requires forall x :: x in todo ==> a <= x
    ensures done == Below(recs, failing) && !(recs.Keys !! failing)
  {
    var below := Below(recs, failing);
    assert a in recs.Keys * failing;
    forall x | x in done ensures BeforeFailing(recs, failing, x) {
      forall f | f in recs && f in failing ensures x < f { assert f in todo; }
    }
    forall x | x in below ensures x in done {
      assert BeforeFailing(recs, failing, x) && x < a;
      assert x in todo ==> a <= x;
      assert x !in todo;
    }
    assert done.Keys == below.Keys;
  }

  lemma SweepDone(recs: Records, failing: set<Address>, done: Records)
    requires Sweep(recs, failing, done, {})
    ensures done == recs == Below(recs, failing) && recs.Keys !! failing
  {
    forall x | x in recs ensures x in done { assert x !in recs.Keys - done.Keys; }
    assert done.Keys == recs.Keys;
    assert recs.Keys * failing == {};
  }

  method Least(s: set<Address>) returns (least: Address)
    requires s != {}
    ensures least in s && forall x :: x in s ==> least <= x
  {
    least :| least in s;
    var rest := s - {least};
    while rest != {}
      invariant rest <= s && least in s
      invariant forall x :: x in s && x !in rest ==> least <= x
      decreases |rest|
    {
      var x :| x in rest;
      rest := rest - {x};
      if x < least { least := x; }
    }
  }

  // ----- what loading leaves

  function WithSlots(t: Tables, a: Address, slots: map<u256, u256>): Tables {
    WithEntry(t, a, EntryOf(t, a).(storage := EntryOf(t, a).storage + slots))
  }

  function AfterLoadOne(t: Tables, a: Address, r: Record, nonce: u64): Tables {
    var t1 := Overlay.Apply(Overlay.Apply(t, a, SetBalance(r.balance)), a, SetNonce(nonce));
    WithSlots(Overlay.Apply(t1, a, SetCode(r.code)), a, r.storage)
  }

  /** The entry a record leaves for its account. */
  function LoadedEntry(t: Tables, base: Base, a: Address, r: Record): AccountOverride {
    AccountOverride(
      Some(r.balance),
      Some(Max(AccountNonce(t, base, a), r.nonce) as u64),
      Some(Keccak(r.code)),
      EntryOf(t, a).storage + r.storage)
  }

  function CodesOf(recs: Records): set<Hash> {
    set a | a in recs && recs[a].code != [] :: Keccak(recs[a].code)
  }

  /** All records loaded, in closed form. */
  function Loaded(t: Tables, base: Base, recs: Records): Tables {
    Tables(
      map a | a in t.accounts.Keys + recs.Keys ::
        if a in recs then LoadedEntry(t, base, a, recs[a]) else t.accounts[a],
      LoadedCodes(t, CodesOf(recs)))
  }

  function LoadedCodes(t: Tables, codes: set<Hash>): map<Hash, Bytes> {
    map h | h in t.bytecodes.Keys + codes :: if h in codes then h.preimage else t.bytecodes[h]
  }

  /** The records of the accounts before the first failing one. */
  function Below(recs: Records, failing: set<Address>): Records {
    map a | a in recs && BeforeFailing(recs, failing, a) :: recs[a]
  }

  predicate BeforeFailing(recs: Records, failing: set<Address>, a: Address) {
    forall f :: f in recs && f in failing ==> a < f
  }

  lemma LoadedNothing(t: Tables, base: Base)
    ensures Loaded(t, base, map[]) == t
  {}

  lemma LoadedNonce(t: Tables, base: Base, done: Records, a: Address)
    requires a !in done
    ensures AccountNonce(Loaded(t, base, done), base, a) == AccountNonce(t, base, a)
  {}

  lemma WithNoSlots(t: Tables, a: Address)
    requires a in t.accounts
    ensures WithSlots(t, a, map[]) == t
  {
    assert t.accounts[a].storage + map[] == t.accounts[a].storage;
    assert t.accounts[a := t.accounts[a]] == t.accounts;
  }

  lemma WithOneMoreSlot(t: Tables, a: Address, slots: map<u256, u256>, slot: u256, word: u256)
    ensures Overlay.Apply(WithSlots(t, a, slots), a, SetStorage(slot, word)) == WithSlots(t, a, slots[slot := word])
  {
    var old' := EntryOf(t, a).storage;
    assert (old' + slots)[slot := word] == old' + slots[slot := word];
  }

  /** The four kinds of writes of one record, together. */
  lemma AfterLoadOneIs(t: Tables, a: Address, r: Record, nonce: u64)
    ensures AfterLoadOne(t, a, r, nonce) == Tables(
              t.accounts[a := AccountOverride(Some(r.balance), Some(nonce), Some(Keccak(r.code)),
                                              EntryOf(t, a).storage + r.storage)],
              if r.code == [] then t.bytecodes else t.bytecodes[Keccak(r.code) := r.code])
  {}

  lemma LoadedOneMore(t: Tables, base: Base, done: Records, a: Address, r: Record)
    requires a !in done
    ensures AfterLoadOne(Loaded(t, base, done), a, r, Max(AccountNonce(t, base, a), r.nonce)) ==
            Loaded(t, base, done[a := r])
  {
    AfterLoadOneIs(Loaded(t, base, done), a, r, Max(AccountNonce(t, base, a), r.nonce));
    OneMoreEntry(t, base, done, a, r);
    OneMoreCode(t, base, done, a, r);
  }

  lemma OneMoreEntry(t: Tables, base: Base, done: Records, a: Address, r: Record)
    requires a !in done
    ensures EntryOf(Loaded(t, base, done), a) == EntryOf(t, a)
    ensures Loaded(t, base, done[a := r]).accounts == Loaded(t, base, done).accounts[a := LoadedEntry(t, base, a, r)]
  {}

  lemma CodesOfOneMore(done: Records, a: Address, r: Record)
    requires a !in done
    ensures CodesOf(done[a := r]) == CodesOf(done) + (if r.code == [] then {} else {Keccak(r.code)})
  {
    var more := done[a := r];
    assert more[a] == r;
    forall x | x in done ensures more[x] == done[x] {}
  }

  lemma OneMoreCode(t: Tables, base: Base, done: Records, a: Address, r: Record)
    requires a !in done
    ensures var before := Loaded(t, base, done).bytecodes;
            Loaded(t, base, done[a := r]).bytecodes ==
            if r.code == [] then before else before[Keccak(r.code) := r.code]
  {
    CodesOfOneMore(done, a, r);
    LoadedCodesAre(t, CodesOf(done), if r.code == [] then None else Some(r.code));
  }

  lemma LoadedCodesAre(t: Tables, codes: set<Hash>, more: Option<Bytes>)
    ensures more.None? ==> LoadedCodes(t, codes + {}) == LoadedCodes(t, codes)
    ensures more.Some? ==>
              LoadedCodes(t, codes + {Keccak(more.value)}) == LoadedCodes(t, codes)[Keccak(more.value) := more.value]
  {
    assert codes + {} == codes;
  }

  lemma LoadKeepsCodeTable(t: Tables, base: Base, recs: Records)
    requires CodeTable(t)
    ensures CodeTable(Loaded(t, base, recs))
  {
    var l := Loaded(t, base, recs);
    forall a | a in l.accounts && l.accounts[a].code.Some?
      ensures l.accounts[a].code.value == KECCAK_EMPTY || l.accounts[a].code.value in l.bytecodes
    {
      if a in recs && recs[a].code != [] { assert Keccak(recs[a].code) in CodesOf(recs); }
    }
  }

  // ----- the round trip

  /** What loading leaves of a listed account: the record's balance and code, the larger nonce, the recorded
      slots; other slots as they were. */
  ghost predicate RestoredAt(t: Tables, t': Tables, base: Base, a: Address, r: Record) {
    && BasicAccount(t', base, a).Some?
    && BasicAccount(t', base, a).value.balance == r.balance
    && BasicAccount(t', base, a).value.nonce == Max(BasicAccount(t, base, a).UnwrapOr(NO_ACCOUNT).nonce, r.nonce)
    && Code(t', base, a) == r.code
    && forall slot :: Storage(t', base, a, slot) ==
                      if slot in r.storage then Some(r.storage[slot]) else Storage(t, base, a, slot)
  }

  ghost predicate UntouchedAt(t: Tables, t': Tables, base: Base, a: Address) {
    && BasicAccount(t', base, a) == BasicAccount(t, base, a)
    && Code(t', base, a) == Code(t, base, a)
    && forall slot :: Storage(t', base, a, slot) == Storage(t, base, a, slot)
  }

  lemma LoadRestores(t: Tables, base: Base, recs: Records, a: Address)
    requires CodeTable(t) && Coherent(base)
    ensures var t' := Loaded(t, base, recs);
            if a in recs then RestoredAt(t, t', base, a, recs[a]) else UntouchedAt(t, t', base, a)
  {
    LoadKeepsCodeTable(t, base, recs);
    CodeIsPreimage(t, base, a);
    CodeIsPreimage(Loaded(t, base, recs), base, a);
  }

  /** Round trip: dump in one state, load in any other (other overrides, even another base). Every account
      the first state reported has its balance, code and recorded slots again, the larger of the two nonces,
      and its other slots as in the second state; every other account is as in the second state. The recorded
      slots include every overridden one, so a slot overridden with zero is zero again. */
  lemma RoundTrip(t1: Tables, base1: Base, dump: seq<DumpedAccount>, t2: Tables, base2: Base, a: Address)
    requires CodeTable(t1) && Coherent(base1) && DumpOf(base1, dump)
    requires CodeTable(t2) && Coherent(base2)
    ensures var recs := Merged(FromDump(dump), t1);
            var t3 := Loaded(t2, base2, recs);
            var was, now, second := BasicAccount(t1, base1, a), BasicAccount(t3, base2, a), BasicAccount(t2, base2, a);
            if was.None? then UntouchedAt(t2, t3, base2, a)
            else
              && a in recs && now.Some?
              && now.value.balance == was.value.balance
              && now.value.nonce == Max(was.value.nonce, second.UnwrapOr(NO_ACCOUNT).nonce)
              && Code(t3, base2, a) == Code(t1, base1, a)
              && forall slot :: Storage(t3, base2, a, slot).UnwrapOr(0) ==
                   (if slot in recs[a].storage then Storage(t1, base1, a, slot)
                    else Storage(t2, base2, a, slot)).UnwrapOr(0)
    ensures forall slot :: slot in EntryOf(t1, a).storage ==>
              Storage(Loaded(t2, base2, Merged(FromDump(dump), t1)), base2, a, slot) ==
              Some(EntryOf(t1, a).storage[slot])
  {
    var recs := Merged(FromDump(dump), t1);
    RecordedSlots(FromDump(dump), t1, a);
    DumpAgrees(t1, base1, dump);
    assert AgreesAt(recs, t1, base1, a);
    LoadRestores(t2, base2, recs, a);
  }

  /** Loading twice is loading once. */
  lemma LoadIsIdempotent(t: Tables, base: Base, recs: Records)
    ensures Loaded(Loaded(t, base, recs), base, recs) == Loaded(t, base, recs)
  {
    ReloadedAccounts(t, base, recs);
    var codes := CodesOf(recs);
    assert LoadedCodes(Loaded(t, base, recs), codes) == LoadedCodes(t, codes);
  }

  lemma ReloadedAccounts(t: Tables, base: Base, recs: Records)
    ensures Loaded(Loaded(t, base, recs), base, recs).accounts == Loaded(t, base, recs).accounts
  {
    var once := Loaded(t, base, recs);
    forall a | a in recs ensures LoadedEntry(once, base, a, recs[a]) == LoadedEntry(t, base, a, recs[a]) {
      ReloadedEntry(t, base, recs, a);
    }
  }

  lemma ReloadedEntry(t: Tables, base: Base, recs: Records, a: Address)
    requires a in recs
    ensures LoadedEntry(Loaded(t, base, recs), base, a, recs[a]) == LoadedEntry(t, base, a, recs[a])
  {
    var s := EntryOf(t, a).storage;
    assert s + recs[a].storage + recs[a].storage == s + recs[a].storage;
  }

  ghost predicate SameReads(t: Tables, t': Tables, base: Base, a: Address) {
    && BasicAccount(t', base, a).Some? == BasicAccount(t, base, a).Some?
    && BasicAccount(t', base, a).UnwrapOr(NO_ACCOUNT).balance == BasicAccount(t, base, a).UnwrapOr(NO_ACCOUNT).balance
    && BasicAccount(t', base, a).UnwrapOr(NO_ACCOUNT).nonce == BasicAccount(t, base, a).UnwrapOr(NO_ACCOUNT).nonce
    && Code(t', base, a) == Code(t, base, a)
    && forall slot :: Storage(t', base, a, slot).UnwrapOr(0) == Storage(t, base, a, slot).UnwrapOr(0)
  }

  /** Loading a dump straight back changes no observable read. */
  lemma LoadBackChangesNothing(t: Tables, base: Base, dump: seq<DumpedAccount>, a: Address)
    requires CodeTable(t) && Coherent(base) && DumpOf(base, dump)
    ensures SameReads(t, Loaded(t, base, Merged(FromDump(dump), t)), base, a)
  {
    var recs := Merged(FromDump(dump), t);
    DumpAgrees(t, base, dump);
    assert AgreesAt(recs, t, base, a);
    LoadRestores(t, base, recs, a);
  }

  /** Loading is a rollback of a listed account exactly when its nonce has not grown and no slot outside the
      dump is non-zero. */
  lemma ListedRollback(recs: Records, t1: Tables, base: Base, t2: Tables, t3: Tables, a: Address)
    requires AgreesAt(recs, t1, base, a) && a in recs && RestoredAt(t2, t3, base, a, recs[a])
    ensures SameReads(t1, t3, base, a) <==>
            && BasicAccount(t2, base, a).UnwrapOr(NO_ACCOUNT).nonce <= recs[a].nonce
            && forall slot :: slot !in recs[a].storage ==> Storage(t2, base, a, slot).UnwrapOr(0) == 0
  {
    forall slot ensures Storage(t1, base, a, slot).UnwrapOr(0) == Slot(recs[a].storage, slot) {}
    if SameReads(t1, t3, base, a) {
      forall slot | slot !in recs[a].storage ensures Storage(t2, base, a, slot).UnwrapOr(0) == 0 {
        assert Storage(t3, base, a, slot).UnwrapOr(0) == Storage(t1, base, a, slot).UnwrapOr(0);
      }
    }
  }

  /** Loading never changes an account the dump does not list, so it is a rollback exactly when the account
      is still not there. */
  lemma UnlistedRollback(recs: Records, t1: Tables, base: Base, t2: Tables, t3: Tables, a: Address)
    requires AgreesAt(recs, t1, base, a) && a !in recs && UntouchedAt(t2, t3, base, a)
    ensures SameReads(t1, t3, base, a) <==> BasicAccount(t2, base, a).None?
  {
    if BasicAccount(t2, base, a).None? {
      assert a !in t2.accounts && a !in t1.accounts && a !in base.accounts;
    }
  }

  /** When a load is a rollback: dump in one state, load in another over the same base, and every read of the
      account is the first state's again if and only if the condition holds. */
  lemma RollbackExactly(t1: Tables, base: Base, dump: seq<DumpedAccount>, t2: Tables, recs: Records, a: Address)
    requires CodeTable(t1) && CodeTable(t2) && Coherent(base) && DumpOf(base, dump)
    requires recs == Merged(FromDump(dump), t1)
    ensures SameReads(t1, Loaded(t2, base, recs), base, a) <==>
            if a in recs then
              && BasicAccount(t2, base, a).UnwrapOr(NO_ACCOUNT).nonce <= recs[a].nonce
              && forall slot :: slot !in recs[a].storage ==> Storage(t2, base, a, slot).UnwrapOr(0) == 0
            else BasicAccount(t2, base, a).None?
  {
    DumpAgrees(t1, base, dump);
    assert AgreesAt(recs, t1, base, a);
    LoadRestores(t2, base, recs, a);
    if a in recs {
      ListedRollback(recs, t1, base, t2, Loaded(t2, base, recs), a);
    } else {
      UnlistedRollback(recs, t1, base, t2, Loaded(t2, base, recs), a);
    }
  }

  /** The condition can fail: a nonce raised after the dump stays raised. */
  lemma RaisedNonceStays(a: Address, before: u64, after: u64)
    requires before < after
    ensures var base := Base(map[], map[]);
            var t1 := Overlay.Apply(Tables(map[], map[]), a, SetNonce(before));
            var t3 := Loaded(Overlay.Apply(t1, a, SetNonce(after)), base, Merged(FromDump([]), t1));
            AccountNonce(t3, base, a) == after && !SameReads(t1, t3, base, a)
  {
    var base, t1 := Base(map[], map[]), Overlay.Apply(Tables(map[], map[]), a, SetNonce(before));
    var recs := Merged(FromDump([]), t1);
    assert recs[a].nonce == before;
    var t3 := Loaded(Overlay.Apply(t1, a, SetNonce(after)), base, recs);
    assert t3.accounts[a].nonce == Some(after);
    HelpersAgree(t1, base, a);
    HelpersAgree(t3, base, a);
  }

  /** It can fail the other way: a slot first written after the dump keeps its word. */
  lemma NewSlotStays(a: Address, nonce: u64, slot: u256, word: u256)
    requires word != 0
    ensures var base := Base(map[], map[]);
            var t1 := Overlay.Apply(Tables(map[], map[]), a, SetNonce(nonce));
            var t3 := Loaded(Overlay.Apply(t1, a, SetStorage(slot, word)), base, Merged(FromDump([]), t1));
            Storage(t3, base, a, slot) == Some(word) && !SameReads(t1, t3, base, a)
  {
    var base, t1 := Base(map[], map[]), Overlay.Apply(Tables(map[], map[]), a, SetNonce(nonce));
    var recs := Merged(FromDump([]), t1);
    assert recs[a].storage == map[];
    var t3 := Loaded(Overlay.Apply(t1, a, SetStorage(slot, word)), base, recs);
    assert t3.accounts[a].storage == map[slot := word];
    assert Storage(t1, base, a, slot) == None;
  }

  // ----- balance top-ups

  /** `anvil_add_balance`, whose read of the balance fails if the base is needed and cannot be read. */
  function AfterTopUp(t: Tables, base: Base, failing: set<Address>, a: Address, amount: u256): Tables {
    if a in failing && EntryOf(t, a).balance.None? then t
    else Overlay.Apply(t, a, SetBalance(SatU256(AccountBalance(t, base, a) + amount)))
  }

  /** A call, with the accounts the base provider cannot read at that moment. */
  datatype TopUp = TopUp(receiver: Address, amount: u256, failing: set<Address>)

  function AddAll(t: Tables, base: Base, adds: seq<TopUp>): Tables {
    if adds == [] then t
    else
      var last := adds[|adds| - 1];
      AfterTopUp(AddAll(t, base, adds[..|adds| - 1]), base, last.failing, last.receiver, last.amount)
  }

  /** Some call found the base readable for its receiver a. */
  predicate Answered(adds: seq<TopUp>, a: Address) {
    exists k :: 0 <= k < |adds| && adds[k].receiver == a && a !in adds[k].failing
  }

  /** What a is given: the amounts of its calls that succeed. A call succeeds if the base can be read, or if
      there is an override already, from the start or from an earlier success. */
  function Given(t: Tables, adds: seq<TopUp>, a: Address): nat {
    if adds == [] then 0
    else
      var front, last := adds[..|adds| - 1], adds[|adds| - 1];
      var succeeds := last.receiver == a && (EntryOf(t, a).balance.Some? || Answered(adds, a));
      Given(t, front, a) + (if succeeds then last.amount else 0)
  }

  lemma AnsweredSnoc(adds: seq<TopUp>, a: Address)
    requires adds != []
    ensures var front, last := adds[..|adds| - 1], adds[|adds| - 1];
            Answered(adds, a) <==> Answered(front, a) || (last.receiver == a && a !in last.failing)
  {
    var front := adds[..|adds| - 1];
    if Answered(front, a) {
      var k :| 0 <= k < |front| && front[k].receiver == a && a !in front[k].failing;
      assert adds[k].receiver == a && a !in adds[k].failing;
    }
  }

  /** An address has a balance override after the calls if it had one before or one of them succeeded. */
  lemma {:induction false} OverriddenAfter(t: Tables, base: Base, adds: seq<TopUp>, a: Address)
    ensures EntryOf(AddAll(t, base, adds), a).balance.Some? <==> EntryOf(t, a).balance.Some? || Answered(adds, a)
  {
    if adds != [] {
      OverriddenAfter(t, base, adds[..|adds| - 1], a);
      AnsweredSnoc(adds, a);
    }
  }

  /** After any calls, to any addresses, with any of them failing, each address reads its former balance plus
      all that its successful calls gave it, saturating, through helper and provider alike; nonce, code and
      storage read as before. */
  lemma {:induction false} TopUpsAccumulate(t: Tables, base: Base, adds: seq<TopUp>, a: Address)
    ensures var t' := AddAll(t, base, adds);
            && AccountBalance(t', base, a) == SatU256(AccountBalance(t, base, a) + Given(t, adds, a))
            && BasicAccount(t', base, a).UnwrapOr(NO_ACCOUNT).balance == AccountBalance(t', base, a)
            && AccountNonce(t', base, a) == AccountNonce(t, base, a)
            && t'.bytecodes == t.bytecodes
            && EntryOf(t', a).code == EntryOf(t, a).code && EntryOf(t', a).storage == EntryOf(t, a).storage
  {
    if adds != [] {
      TopUpsAccumulate(t, base, adds[..|adds| - 1], a);
      OverriddenAfter(t, base, adds[..|adds| - 1], a);
      AnsweredSnoc(adds, a);
    }
  }

  /** A call, even of nothing, makes its receiver an account exactly if it succeeds. */
  lemma {:induction false} TopUpReceivers(t: Tables, base: Base, adds: seq<TopUp>, a: Address)
    ensures a in AddAll(t, base, adds).accounts <==> a in t.accounts || Answered(adds, a)
  {
    if adds != [] {
      TopUpReceivers(t, base, adds[..|adds| - 1], a);
      OverriddenAfter(t, base, adds[..|adds| - 1], a);
      AnsweredSnoc(adds, a);
    }
  }

  // ----- their order

  /** All amounts meant for a. */
  function Total(adds: seq<TopUp>, a: Address): nat {
    if adds == [] then 0 else Total(adds[..|adds| - 1], a) + Meant(adds[|adds| - 1], a)
  }

  function Meant(add: TopUp, a: Address): nat { if add.receiver == a then add.amount else 0 }

  /** Nothing a is meant to be given depends on a call before it: a has an override already, no call for it can
      read the base, or those that cannot give it nothing. */
  ghost predicate OrderFree(t: Tables, adds: seq<TopUp>, a: Address) {
    || EntryOf(t, a).balance.Some?
    || !Answered(adds, a)
    || forall add :: add in adds && add.receiver == a && a in add.failing ==> add.amount == 0
  }

  /** Then a gets all that was meant for it, or nothing. */
  lemma {:induction false} AllOrNothing(t: Tables, adds: seq<TopUp>, a: Address)
    requires OrderFree(t, adds, a)
    ensures Given(t, adds, a) == if EntryOf(t, a).balance.Some? || Answered(adds, a) then Total(adds, a) else 0
  {
    if adds != [] {
      var front, last := adds[..|adds| - 1], adds[|adds| - 1];
      AnsweredSnoc(adds, a);
      assert last in adds && forall add :: add in front ==> add in adds;
      if EntryOf(t, a).balance.None? && Answered(adds, a) {
        UnansweredGiveNothing(t, adds, a);
      } else {
        AllOrNothing(t, front, a);
      }
    }
  }

  lemma {:induction false} UnansweredGiveNothing(t: Tables, adds: seq<TopUp>, a: Address)
    requires forall add :: add in adds && add.receiver == a && a in add.failing ==> add.amount == 0
    ensures Given(t, adds, a) == Total(adds, a)
  {
    if adds != [] {
      assert adds[|adds| - 1] in adds;
      UnansweredGiveNothing(t, adds[..|adds| - 1], a);
      AnsweredSnoc(adds, a);
    }
  }

  lemma TotalSnoc(front: seq<TopUp>, last: TopUp, a: Address)
    ensures Total(front + [last], a) == Total(front, a) + Meant(last, a)
  {
    assert (front + [last])[..|front|] == front;
  }

  lemma {:induction false} TotalSplit(front: seq<TopUp>, mid: TopUp, back: seq<TopUp>, a: Address)
    ensures Total(front + [mid] + back, a) == Total(front + back, a) + Meant(mid, a)
  {
    if back == [] {
      assert front + [mid] + back == front + [mid] && front + back == front;
      TotalSnoc(front, mid, a);
    } else {
      var n := |back| - 1;
      TotalSplit(front, mid, back[..n], a);
      assert front + [mid] + back == (front + [mid] + back[..n]) + [back[n]];
      assert front + back == (front + back[..n]) + [back[n]];
      TotalSnoc(front + [mid] + back[..n], back[n], a);
      TotalSnoc(front + back[..n], back[n], a);
    }
  }

  lemma {:induction false} TotalsCommute(adds: seq<TopUp>, other: seq<TopUp>, a: Address)
    requires multiset(adds) == multiset(other)
    ensures Total(adds, a) == Total(other, a)
  {
    if adds == [] {
      assert |multiset(other)| == 0;
    } else {
      var n := |adds| - 1;
      var last := adds[n];
      assert adds == adds[..n] + [last] && last in multiset(other);
      var k :| 0 <= k < |other| && other[k] == last;
      var front, back := other[..k], other[k + 1..];
      assert other == front + [last] + back;
      SameWithoutOne(adds[..n], last, front, back);
      TotalsCommute(adds[..n], front + back, a);
      TotalSnoc(adds[..n], last, a);
      TotalSplit(front, last, back, a);
    }
  }

  lemma AnsweredInAnyOrder(adds: seq<TopUp>, other: seq<TopUp>, a: Address)
    requires multiset(adds) == multiset(other) && Answered(adds, a)
    ensures Answered(other, a)
  {
    var k :| 0 <= k < |adds| && adds[k].receiver == a && a !in adds[k].failing;
    assert adds[k] in multiset(other);
  }

  lemma GivenInAnyOrder(t: Tables, adds: seq<TopUp>, other: seq<TopUp>, a: Address)
    requires multiset(adds) == multiset(other) && OrderFree(t, adds, a)
    ensures Given(t, adds, a) == Given(t, other, a) && (Answered(adds, a) <==> Answered(other, a))
  {
    if Answered(adds, a) { AnsweredInAnyOrder(adds, other, a); }
    if Answered(other, a) { AnsweredInAnyOrder(other, adds, a); }
    forall add | add in other ensures add in adds { assert add in multiset(adds); }
    AllOrNothing(t, adds, a);
    AllOrNothing(t, other, a);
    TotalsCommute(adds, other, a);
  }

  /** The order of the calls does not matter to what anyone reads of a, saturation and failures included, if
      nothing it is given depends on an earlier call. */
  lemma TopUpsCommute(t: Tables, base: Base, adds: seq<TopUp>, other: seq<TopUp>, a: Address)
    requires multiset(adds) == multiset(other) && OrderFree(t, adds, a)
    ensures AccountBalance(AddAll(t, base, adds), base, a) == AccountBalance(AddAll(t, base, other), base, a)
    ensures SameReads(AddAll(t, base, adds), AddAll(t, base, other), base, a)
  {
    GivenInAnyOrder(t, adds, other, a);
    TopUpsAccumulate(t, base, adds, a);
    TopUpsAccumulate(t, base, other, a);
    TopUpReceivers(t, base, adds, a);
    TopUpReceivers(t, base, other, a);
    SameEntry(AddAll(t, base, adds), AddAll(t, base, other), base, a);
  }

  /** After a first call that finds the base readable, all others for its receiver succeed. */
  lemma {:induction false} FirstSucceeds(t: Tables, first: TopUp, rest: seq<TopUp>)
    requires first.receiver !in first.failing
    ensures Given(t, [first] + rest, first.receiver) == Total([first] + rest, first.receiver)
  {
    var all := [first] + rest;
    assert all[0] == first;
    if rest != [] {
      FirstSucceeds(t, first, rest[..|rest| - 1]);
      assert all[..|all| - 1] == [first] + rest[..|rest| - 1];
    }
  }

  /** A first call that fails is lost. */
  lemma {:induction false} FirstFails(t: Tables, first: TopUp, rest: seq<TopUp>)
    requires first.receiver in first.failing && EntryOf(t, first.receiver).balance.None?
    ensures Given(t, [first] + rest, first.receiver) + first.amount <= Total([first] + rest, first.receiver)
  {
    var all := [first] + rest;
    if rest == [] {
      assert all == [first] && all[..0] == [];
    } else {
      FirstFails(t, first, rest[..|rest| - 1]);
      assert all[..|all| - 1] == [first] + rest[..|rest| - 1];
    }
  }

  lemma MovedToFront(adds: seq<TopUp>, k: nat)
    requires k < |adds|
    ensures multiset([adds[k]] + (adds[..k] + adds[k + 1..])) == multiset(adds)
  {
    assert adds == adds[..k] + [adds[k]] + adds[k + 1..];
  }

  /** The order that gives a most: a call that succeeds first. */
  lemma MostGiven(t: Tables, adds: seq<TopUp>, k: nat) returns (most: seq<TopUp>)
    requires k < |adds| && adds[k].receiver !in adds[k].failing
    ensures multiset(adds) == multiset(most)
    ensures Given(t, most, adds[k].receiver) == Total(adds, adds[k].receiver)
  {
    most := [adds[k]] + (adds[..k] + adds[k + 1..]);
    MovedToFront(adds, k);
    FirstSucceeds(t, adds[k], adds[..k] + adds[k + 1..]);
    TotalsCommute(adds, most, adds[k].receiver);
  }

  /** An order that gives it less: a call that fails first. */
  lemma LessGiven(t: Tables, adds: seq<TopUp>, k: nat) returns (less: seq<TopUp>)
    requires k < |adds| && adds[k].receiver in adds[k].failing && EntryOf(t, adds[k].receiver).balance.None?
    ensures multiset(adds) == multiset(less)
    ensures Given(t, less, adds[k].receiver) + adds[k].amount <= Total(adds, adds[k].receiver)
  {
    less := [adds[k]] + (adds[..k] + adds[k + 1..]);
    MovedToFront(adds, k);
    FirstFails(t, adds[k], adds[..k] + adds[k + 1..]);
    TotalsCommute(adds, less, adds[k].receiver);
  }

  lemma TwoOrdersDiffer(t: Tables, adds: seq<TopUp>, a: Address) returns (most: seq<TopUp>, less: seq<TopUp>)
    requires !OrderFree(t, adds, a)
    ensures multiset(adds) == multiset(most) == multiset(less) && Given(t, less, a) < Given(t, most, a)
  {
    var k :| 0 <= k < |adds| && adds[k].receiver == a && a !in adds[k].failing;
    var j :| 0 <= j < |adds| && adds[j].receiver == a && a in adds[j].failing && adds[j].amount > 0;
    most := MostGiven(t, adds, k);
    less := LessGiven(t, adds, j);
  }

  /** When the order matters: all orders of the calls give a the same if and only if nothing it is given depends
      on an earlier call. Otherwise a call that fails alone succeeds after one that finds the base readable. */
  lemma OrderMattersExactly(t: Tables, adds: seq<TopUp>, a: Address)
    ensures (forall other :: multiset(adds) == multiset(other) ==> Given(t, other, a) == Given(t, adds, a)) <==>
            OrderFree(t, adds, a)
  {
    if OrderFree(t, adds, a) {
      forall other | multiset(adds) == multiset(other) ensures Given(t, other, a) == Given(t, adds, a) {
        GivenInAnyOrder(t, adds, other, a);
      }
    } else {
      var most, less := TwoOrdersDiffer(t, adds, a);
    }
  }

  lemma SameEntry(t: Tables, t': Tables, base: Base, a: Address)
    requires a in t.accounts <==> a in t'.accounts
    requires t'.bytecodes == t.bytecodes && EntryOf(t', a).code == EntryOf(t, a).code
    requires EntryOf(t', a).storage == EntryOf(t, a).storage
    requires AccountBalance(t', base, a) == AccountBalance(t, base, a)
    requires AccountNonce(t', base, a) == AccountNonce(t, base, a)
    ensures SameReads(t, t', base, a)
  {
    HelpersAgree(t, base, a);
    HelpersAgree(t', base, a);
  }

  lemma SameWithoutOne<T>(rest: seq<T>, x: T, front: seq<T>, back: seq<T>)
    requires multiset(rest + [x]) == multiset(front + [x] + back)
    ensures multiset(rest) == multiset(front + back)
  {
    assert multiset(rest) == multiset(rest + [x]) - multiset{x};
    assert multiset(front + back) == multiset(front + [x] + back) - multiset{x};
  }

  // ----- every way the overlay changes, mixed

  datatype Change =
    | Put(account: Address, write: Write) | Add(receiver: Address, amount: u256) | Load(records: Records)

  /** A change, with the base state it meets and the accounts whose base read fails. */
  datatype Event = Event(change: Change, base: Base, failing: set<Address>)

  function AfterEvent(t: Tables, e: Event): Tables {
    match e.change
    case Put(a, w) => Overlay.Apply(t, a, w)
    case Add(a, amount) => AfterTopUp(t, e.base, e.failing, a, amount)
    case Load(recs) => Loaded(t, e.base, Below(recs, e.failing))
  }

  function AfterEvents(t: Tables, events: seq<Event>): Tables {
    if events == [] then t else AfterEvent(AfterEvents(t, events[..|events| - 1]), events[|events| - 1])
  }

  /** The two tables stay tied through any mix of writes, top-ups and loads, with loads stopped anywhere by a
      failing read. */
  lemma {:induction false} EventsKeepCodeTable(t: Tables, events: seq<Event>)
    requires CodeTable(t)
    ensures CodeTable(AfterEvents(t, events))
  {
    if events != [] {
      var front, e := AfterEvents(t, events[..|events| - 1]), events[|events| - 1];
      EventsKeepCodeTable(t, events[..|events| - 1]);
      match e.change
      case Put(a, w) => ApplyKeepsCodeTable(front, a, w);
      case Add(a, amount) =>
      case Load(recs) => LoadKeepsCodeTable(front, e.base, Below(recs, e.failing));
    }
  }
}
