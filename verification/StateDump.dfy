/**
 Dumping dev state: `SerializableState` of src/state_dump.rs, which collects the base provider's dump and
 merges the overlay into it. The JSON and gzip encodings are the identity on records.
 */
module StateDump {
  import opened Words
  import opened Overlay

  datatype Record = Record(nonce: u64, balance: u256, code: Bytes, storage: map<u256, u256>)

  type Records = map<Address, Record>

  const NO_RECORD := Record(0, 0, [], map[])

  /** An account as the base provider's dump lists it. */
  datatype DumpedAccount =
    DumpedAccount(address: Address, nonce: u64, balance: u256, code: Option<Bytes>, storage: map<u256, u256>)

  function RecordOf(d: DumpedAccount): Record {
    Record(d.nonce, d.balance, d.code.UnwrapOr([]), d.storage)
  }

  function FromDump(dump: seq<DumpedAccount>): Records {
    if dump == [] then map[]
    else
      var last := dump[|dump| - 1];
      FromDump(dump[..|dump| - 1])[last.address := RecordOf(last)]
  }

  /** A slot that is not recorded reads as zero. */
  function Slot(storage: map<u256, u256>, slot: u256): u256 {
    if slot in storage then storage[slot] else 0
  }

  // ----- merging the overlay into a dump

  function MergedRecord(r: Record, o: AccountOverride, codes: map<Hash, Bytes>): Record {
    Record(
      o.nonce.UnwrapOr(r.nonce),
      o.balance.UnwrapOr(r.balance),
      match o.code
      case None => r.code
      case Some(h) => if h == KECCAK_EMPTY || h !in codes then [] else codes[h],
      r.storage + o.storage)
  }

  function RecordIn(recs: Records, a: Address): Record {
    if a in recs then recs[a] else NO_RECORD
  }

  function Merged(recs: Records, t: Tables): Records {
    PartlyMerged(recs, t, t.accounts.Keys)
  }

  /** The merge after visiting the overrides of the accounts in `done`. */
  function PartlyMerged(recs: Records, t: Tables, done: set<Address>): Records
    requires done <= t.accounts.Keys
  {
    map a | a in recs.Keys + done ::
      if a in done then MergedRecord(RecordIn(recs, a), t.accounts[a], t.bytecodes) else recs[a]
  }

  lemma VisitOne(recs: Records, t: Tables, done: set<Address>, a: Address)
    requires done <= t.accounts.Keys && a in t.accounts && a !in done
    ensures var before := PartlyMerged(recs, t, done);
            PartlyMerged(recs, t, done + {a}) ==
            before[a := MergedRecord(RecordIn(before, a), t.accounts[a], t.bytecodes)]
  {}

  class SerializableState {
    var accounts: Records

    constructor (dump: seq<DumpedAccount>)
      ensures accounts == FromDump(dump)
    {
      accounts := FromDump(dump);
    }

    /** Visits the overrides, and each account's slots, in whatever order the hash maps give them. */
    method MergeAnvilState(state: AnvilState)
      modifies this
      ensures accounts == Merged(old(accounts), state.View())
    {
      ghost var recs, t := accounts, state.View();
      var todo := state.accounts.Keys;
      ghost var done: set<Address> := {};
      assert accounts == PartlyMerged(recs, t, done);
      while todo != {}
        invariant done <= t.accounts.Keys && todo == t.accounts.Keys - done && state.View() == t
        invariant accounts == PartlyMerged(recs, t, done)
        decreases |todo|
      {
        var a :| a in todo;
        todo := todo - {a};
        MergeAccount(state, a, recs, done);
        done := done + {a};
      }
      assert done == t.accounts.Keys;
    }

    method MergeAccount(state: AnvilState, a: Address, ghost recs: Records, ghost done: set<Address>)
      requires done <= state.accounts.Keys && a in state.accounts && a !in done
      requires accounts == PartlyMerged(recs, state.View(), done)
      modifies this
      ensures accounts == PartlyMerged(recs, state.View(), done + {a})
    {
      var record := MergeOverride(RecordIn(accounts, a), state.accounts[a], state.bytecodes);
      VisitOne(recs, state.View(), done, a);
      accounts := accounts[a := record];
    }
  }

  method MergeOverride(r: Record, o: AccountOverride, codes: map<Hash, Bytes>) returns (record: Record)
    ensures record == MergedRecord(r, o, codes)
  {
    record := r;
    if o.balance.Some? {
      record := record.(balance := o.balance.value);
    }
    if o.nonce.Some? {
      record := record.(nonce := o.nonce.value);
    }
    if o.code.Some? {
      var h := o.code.value;
      record := record.(code := if h == KECCAK_EMPTY then [] else if h in codes then codes[h] else []);
    }
    var merged := InsertAll(record.storage, o.storage);
    record := record.(storage := merged);
  }

  method InsertAll(storage: map<u256, u256>, more: map<u256, u256>) returns (all: map<u256, u256>)
    ensures all == storage + more
  {
    all := storage;
    var todo := more.Keys;
    while todo != {}
      invariant todo <= more.Keys
      invariant all == storage + (map s | s in more && s !in todo :: more[s])
      decreases |todo|
    {
      var slot :| slot in todo;
      todo := todo - {slot};
      all := all[slot := more[slot]];
    }
    assert (map s | s in more && s !in todo :: more[s]) == more;
  }

  // ----- a dump agrees with live reads

  /** The base provider's dump lists each account once, as the provider reads it; it may leave zero slots out. */
  ghost predicate Describes(base: Base, d: DumpedAccount) {
    && d.address in base.accounts
    && d.nonce == base.accounts[d.address].nonce
    && d.balance == base.accounts[d.address].balance
    && d.code.UnwrapOr([]) == Code(Tables(map[], map[]), base, d.address)
    && forall slot :: Slot(d.storage, slot) == Slot(base.accounts[d.address].storage, slot)
  }

  ghost predicate DumpOf(base: Base, dump: seq<DumpedAccount>) {
    && (forall i :: 0 <= i < |dump| ==> Describes(base, dump[i]))
    && (forall i, j :: 0 <= i < j < |dump| ==> dump[i].address != dump[j].address)
    && (forall a :: a in base.accounts ==> exists i :: 0 <= i < |dump| && dump[i].address == a)
  }

  lemma {:induction false} FromDumpListsEach(dump: seq<DumpedAccount>, i: nat)
    requires i < |dump|
    requires forall j, k :: 0 <= j < k < |dump| ==> dump[j].address != dump[k].address
    ensures dump[i].address in FromDump(dump) && FromDump(dump)[dump[i].address] == RecordOf(dump[i])
  {
    if i < |dump| - 1 {
      FromDumpListsEach(dump[..|dump| - 1], i);
    }
  }

  lemma {:induction false} FromDumpListsOnly(dump: seq<DumpedAccount>, a: Address)
    requires a in FromDump(dump)
    ensures exists i :: 0 <= i < |dump| && dump[i].address == a
  {
    var last := dump[|dump| - 1];
    if a != last.address {
      var front := dump[..|dump| - 1];
      FromDumpListsOnly(front, a);
      var i :| 0 <= i < |front| && front[i].address == a;
      assert dump[i].address == a;
    }
  }

  /** The records list exactly the accounts the provider reports, with the values it reads. */
  ghost predicate AgreesAt(recs: Records, t: Tables, base: Base, a: Address) {
    && (a in recs <==> BasicAccount(t, base, a).Some?)
    && (a in recs ==>
          && recs[a].balance == BasicAccount(t, base, a).value.balance
          && recs[a].nonce == BasicAccount(t, base, a).value.nonce
          && recs[a].code == Code(t, base, a)
          && forall slot :: Slot(recs[a].storage, slot) == Storage(t, base, a, slot).UnwrapOr(0))
  }

  ghost predicate Agrees(recs: Records, t: Tables, base: Base) {
    forall a :: AgreesAt(recs, t, base, a)
  }

  lemma BaseDumpAgrees(base: Base, dump: seq<DumpedAccount>)
    requires DumpOf(base, dump)
    ensures Agrees(FromDump(dump), Tables(map[], map[]), base)
  {
    var recs, none := FromDump(dump), Tables(map[], map[]);
    forall a ensures AgreesAt(recs, none, base, a) {
      if a in recs { FromDumpListsOnly(dump, a); }
      if a in base.accounts || a in recs {
        var i :| 0 <= i < |dump| && dump[i].address == a;
        FromDumpListsEach(dump, i);
        assert Describes(base, dump[i]);
      }
    }
  }

  lemma MergeAgreesAt(recs: Records, t: Tables, base: Base, a: Address)
    requires CodeTable(t) && Coherent(base) && AgreesAt(recs, Tables(map[], map[]), base, a)
    ensures AgreesAt(Merged(recs, t), t, base, a)
  {
    CodeIsPreimage(Tables(map[], map[]), base, a);
    CodeIsPreimage(t, base, a);
    var all := Merged(recs, t);
    if a in all {
      forall slot ensures Slot(all[a].storage, slot) == Storage(t, base, a, slot).UnwrapOr(0) {
        assert a in recs ==> Slot(recs[a].storage, slot) == Storage(Tables(map[], map[]), base, a, slot).UnwrapOr(0);
      }
      if a in t.accounts && t.accounts[a].code.Some? { MergeFindsCode(t, a); }
    }
  }

  /** Dump agrees with live reads: the three places that lay overrides over the base (provider, merge, and by
      HelpersAgree the RPC helpers) tell the same story, in any order of visiting the overrides. */
  lemma DumpAgrees(t: Tables, base: Base, dump: seq<DumpedAccount>)
    requires CodeTable(t) && Coherent(base) && DumpOf(base, dump)
    ensures Agrees(Merged(FromDump(dump), t), t, base)
  {
    BaseDumpAgrees(base, dump);
    forall a ensures AgreesAt(Merged(FromDump(dump), t), t, base, a) {
      assert AgreesAt(FromDump(dump), Tables(map[], map[]), base, a);
      MergeAgreesAt(FromDump(dump), t, base, a);
    }
  }

  /** The missing-bytecode default of the merge is never taken. */
  lemma MergeFindsCode(t: Tables, a: Address)
    requires CodeTable(t) && a in t.accounts && t.accounts[a].code.Some?
    ensures t.accounts[a].code.value != KECCAK_EMPTY ==> t.accounts[a].code.value in t.bytecodes
    ensures MergedRecord(NO_RECORD, t.accounts[a], t.bytecodes).code == t.accounts[a].code.value.preimage
  {}

  /** Which slots a dump records: those of the base's record and every overridden one, zero words included,
      the overriding word where there is one. */
  lemma RecordedSlots(recs: Records, t: Tables, a: Address)
    ensures a in Merged(recs, t) <==> a in recs || a in t.accounts
    ensures a in Merged(recs, t) ==>
              Merged(recs, t)[a].storage.Keys == RecordIn(recs, a).storage.Keys + EntryOf(t, a).storage.Keys
    ensures forall slot :: slot in EntryOf(t, a).storage ==>
              a in Merged(recs, t) && slot in Merged(recs, t)[a].storage
              && Merged(recs, t)[a].storage[slot] == EntryOf(t, a).storage[slot]
  {}
}
