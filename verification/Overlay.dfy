/**
 The dev-state overlay: `AnvilState` of src/state.rs, the provider that reads it over a base state
 (src/state_provider.rs), and a flat state in which the same writes are made directly.
 */
module Overlay {
  import opened Words

  type Bytes = seq<bv8>

  /** Keccak-256, idealised as collision-free: a hash is identified by what was hashed. */
  datatype Hash = Keccak(preimage: Bytes)

  const KECCAK_EMPTY := Keccak([])

  datatype AccountOverride = AccountOverride(
    balance: Option<u256>, nonce: Option<u64>, code: Option<Hash>, storage: map<u256, u256>)

  const NO_OVERRIDE := AccountOverride(None, None, None, map[])

  /** The two tables of `AnvilState`. */
  datatype Tables = Tables(accounts: map<Address, AccountOverride>, bytecodes: map<Hash, Bytes>)

  /** The base state below the overlay. */
  datatype BaseAccount = BaseAccount(balance: u256, nonce: u64, codeHash: Option<Hash>, storage: map<u256, u256>)

  datatype Base = Base(accounts: map<Address, BaseAccount>, codes: map<Hash, Bytes>)

  /** What a provider reports of an account. */
  datatype Account = Account(balance: u256, nonce: u64, codeHash: Option<Hash>)

  // ----- writes

  function EntryOf(t: Tables, a: Address): AccountOverride {
    if a in t.accounts then t.accounts[a] else NO_OVERRIDE
  }

  function WithEntry(t: Tables, a: Address, entry: AccountOverride): Tables {
    t.(accounts := t.accounts[a := entry])
  }

  /** Code goes to the second table under its hash, except the empty code, which has a fixed hash. */
  function WithCode(t: Tables, a: Address, code: Bytes): Tables {
    var stored := if code == [] then t else t.(bytecodes := t.bytecodes[Keccak(code) := code]);
    WithEntry(stored, a, EntryOf(t, a).(code := Some(if code == [] then KECCAK_EMPTY else Keccak(code))))
  }

  datatype Write =
    | SetBalance(balance: u256) | SetNonce(nonce: u64) | SetCode(code: Bytes) | SetStorage(slot: u256, word: u256)

  function Apply(t: Tables, a: Address, w: Write): Tables {
    match w
    case SetBalance(b) => WithEntry(t, a, EntryOf(t, a).(balance := Some(b)))
    case SetNonce(n) => WithEntry(t, a, EntryOf(t, a).(nonce := Some(n)))
    case SetCode(code) => WithCode(t, a, code)
    case SetStorage(slot, word) => WithEntry(t, a, EntryOf(t, a).(storage := EntryOf(t, a).storage[slot := word]))
  }

  function Run(t: Tables, writes: seq<(Address, Write)>): Tables {
    if writes == [] then t
    else
      var front, last := writes[..|writes| - 1], writes[|writes| - 1];
      Apply(Run(t, front), last.0, last.1)
  }

  class AnvilState {
    var accounts: map<Address, AccountOverride>
    var bytecodes: map<Hash, Bytes>

    function View(): Tables
      reads this
    {
      Tables(accounts, bytecodes)
    }

    constructor ()
      ensures View() == Tables(map[], map[])
    {
      accounts, bytecodes := map[], map[];
    }

    /** `entry(address).or_default()`. */
    method Entry(a: Address) returns (entry: AccountOverride)
      modifies this`accounts
      ensures entry == EntryOf(old(View()), a)
      ensures accounts == old(accounts)[a := entry]
    {
      if a !in accounts {
        accounts := accounts[a := NO_OVERRIDE];
      }
      entry := accounts[a];
    }

    method SetBalance(a: Address, balance: u256)
      modifies this
      ensures View() == Apply(old(View()), a, Write.SetBalance(balance))
    {
      var entry := Entry(a);
      accounts := accounts[a := entry.(balance := Some(balance))];
    }

    method SetNonce(a: Address, nonce: u64)
      modifies this
      ensures View() == Apply(old(View()), a, Write.SetNonce(nonce))
    {
      var entry := Entry(a);
      accounts := accounts[a := entry.(nonce := Some(nonce))];
    }

    method SetCode(a: Address, code: Bytes)
      modifies this
      ensures View() == Apply(old(View()), a, Write.SetCode(code))
    {
      var hash: Hash;
      if code == [] {
        hash := KECCAK_EMPTY;
      } else {
        hash := Keccak(code);
        bytecodes := bytecodes[hash := code];
      }
      var entry := Entry(a);
      accounts := accounts[a := entry.(code := Some(hash))];
    }

    method SetStorageAt(a: Address, slot: u256, word: u256)
      modifies this
      ensures View() == Apply(old(View()), a, SetStorage(slot, word))
    {
      var entry := Entry(a);
      accounts := accounts[a := entry.(storage := entry.storage[slot := word])];
    }
  }

  // ----- reads through the provider

  const NO_ACCOUNT := Account(0, 0, None)

  function InnerAccount(base: Base, a: Address): Option<Account> {
    if a in base.accounts then
      Some(Account(base.accounts[a].balance, base.accounts[a].nonce, base.accounts[a].codeHash))
    else None
  }

  function BasicAccount(t: Tables, base: Base, a: Address): Option<Account> {
    if a !in t.accounts then InnerAccount(base, a)
    else
      var o, inner := t.accounts[a], InnerAccount(base, a).UnwrapOr(NO_ACCOUNT);
      Some(Account(
        o.balance.UnwrapOr(inner.balance),
        o.nonce.UnwrapOr(inner.nonce),
        if o.code.Some? then o.code else inner.codeHash))
  }

  function Storage(t: Tables, base: Base, a: Address, slot: u256): Option<u256> {
    if a in t.accounts && slot in t.accounts[a].storage then Some(t.accounts[a].storage[slot])
    else if a in base.accounts && slot in base.accounts[a].storage then Some(base.accounts[a].storage[slot])
    else None
  }

  function BytecodeByHash(t: Tables, base: Base, h: Hash): Option<Bytes> {
    if h in t.bytecodes then Some(t.bytecodes[h])
    else if h in base.codes then Some(base.codes[h])
    else None
  }

  /** The bytes of an account's code: by hash, then by lookup; no hash or no entry is no code. */
  function Code(t: Tables, base: Base, a: Address): Bytes {
    match BasicAccount(t, base, a).UnwrapOr(NO_ACCOUNT).codeHash
    case None => []
    case Some(h) => BytecodeByHash(t, base, h).UnwrapOr([])
  }

  // ----- the tie between the two tables

  /** Entries are stored under their own hash, never under the empty one, and every non-empty code an
      account refers to is there. */
  ghost predicate CodeTable(t: Tables) {
    && (forall h :: h in t.bytecodes ==> h == Keccak(t.bytecodes[h]) && h != KECCAK_EMPTY)
    && (forall a :: a in t.accounts && t.accounts[a].code.Some? ==>
          t.accounts[a].code.value == KECCAK_EMPTY || t.accounts[a].code.value in t.bytecodes)
  }

  /** The same of the base state. */
  ghost predicate Coherent(base: Base) {
    && (forall h :: h in base.codes ==> h == Keccak(base.codes[h]))
    && (forall a :: a in base.accounts && base.accounts[a].codeHash.Some? ==>
          base.accounts[a].codeHash.value == KECCAK_EMPTY || base.accounts[a].codeHash.value in base.codes)
  }

  lemma ApplyKeepsCodeTable(t: Tables, a: Address, w: Write)
    requires CodeTable(t)
    ensures CodeTable(Apply(t, a, w))
  {}

  lemma {:induction false} RunKeepsCodeTable(t: Tables, writes: seq<(Address, Write)>)
    requires CodeTable(t)
    ensures CodeTable(Run(t, writes))
  {
    if writes != [] {
      var front, last := writes[..|writes| - 1], writes[|writes| - 1];
      RunKeepsCodeTable(t, front);
      ApplyKeepsCodeTable(Run(t, front), last.0, last.1);
    }
  }

  /** Under the tie, the bytes read for an account are those its hash was made from. */
  lemma CodeIsPreimage(t: Tables, base: Base, a: Address)
    requires CodeTable(t) && Coherent(base)
    ensures Code(t, base, a) ==
            match BasicAccount(t, base, a).UnwrapOr(NO_ACCOUNT).codeHash
            case None => []
            case Some(h) => h.preimage
  {}

  /** What a write changes in what the provider reads: one field of one account, which exists from then on. */
  lemma WriteIsRead(t: Tables, base: Base, a: Address, w: Write, x: Address, slot: u256)
    requires CodeTable(t) && Coherent(base)
    ensures var t' := Apply(t, a, w);
            var was := BasicAccount(t, base, x).UnwrapOr(NO_ACCOUNT);
            var now := BasicAccount(t', base, x).UnwrapOr(NO_ACCOUNT);
            && (BasicAccount(t', base, x).Some? <==> BasicAccount(t, base, x).Some? || x == a)
            && now.balance == (if x == a && w.SetBalance? then w.balance else was.balance)
            && now.nonce == (if x == a && w.SetNonce? then w.nonce else was.nonce)
            && Code(t', base, x) == (if x == a && w.SetCode? then w.code else Code(t, base, x))
            && Storage(t', base, x, slot) ==
                 (if x == a && w.SetStorage? && w.slot == slot then Some(w.word) else Storage(t, base, x, slot))
  {
    ApplyKeepsCodeTable(t, a, w);
    CodeIsPreimage(t, base, x);
    CodeIsPreimage(Apply(t, a, w), base, x);
  }

  // ----- the flat state

  datatype FlatAccount = FlatAccount(balance: u256, nonce: u64, code: Bytes, storage: map<u256, u256>)

  type Flat = map<Address, FlatAccount>

  const NO_FLAT := FlatAccount(0, 0, [], map[])

  function FlatApply(f: Flat, a: Address, w: Write): Flat {
    var entry := if a in f then f[a] else NO_FLAT;
    match w
    case SetBalance(b) => f[a := entry.(balance := b)]
    case SetNonce(n) => f[a := entry.(nonce := n)]
    case SetCode(code) => f[a := entry.(code := code)]
    case SetStorage(slot, word) => f[a := entry.(storage := entry.storage[slot := word])]
  }

  function FlatRun(f: Flat, writes: seq<(Address, Write)>): Flat {
    if writes == [] then f
    else
      var front, last := writes[..|writes| - 1], writes[|writes| - 1];
      FlatApply(FlatRun(f, front), last.0, last.1)
  }

  /** The base state written out flat. */
  function FlatBase(base: Base): Flat {
    map a | a in base.accounts ::
      var b := base.accounts[a];
      FlatAccount(b.balance, b.nonce, Code(Tables(map[], map[]), base, a), b.storage)
  }

  /** Every read through the provider is the flat state's. */
  ghost predicate ShowsAt(t: Tables, base: Base, f: Flat, a: Address) {
    && (BasicAccount(t, base, a).Some? <==> a in f)
    && (a in f ==>
          && BasicAccount(t, base, a).value.balance == f[a].balance
          && BasicAccount(t, base, a).value.nonce == f[a].nonce
          && Code(t, base, a) == f[a].code)
    && (forall slot :: Storage(t, base, a, slot) ==
                       if a in f && slot in f[a].storage then Some(f[a].storage[slot]) else None)
  }

  ghost predicate Shows(t: Tables, base: Base, f: Flat) {
    forall a :: ShowsAt(t, base, f, a)
  }

  lemma ApplyKeepsShown(t: Tables, base: Base, f: Flat, a: Address, w: Write, x: Address)
    requires CodeTable(t) && Coherent(base) && ShowsAt(t, base, f, x)
    ensures ShowsAt(Apply(t, a, w), base, FlatApply(f, a, w), x)
  {
    ApplyKeepsCodeTable(t, a, w);
    CodeIsPreimage(t, base, x);
    CodeIsPreimage(Apply(t, a, w), base, x);
    ApplyKeepsSlots(t, base, f, a, w, x);
  }

  lemma ApplyKeepsSlots(t: Tables, base: Base, f: Flat, a: Address, w: Write, x: Address)
    requires ShowsAt(t, base, f, x)
    ensures var f' := FlatApply(f, a, w);
            forall slot :: Storage(Apply(t, a, w), base, x, slot) ==
                           if x in f' && slot in f'[x].storage then Some(f'[x].storage[slot]) else None
  {
    forall slot ensures Storage(t, base, x, slot) ==
                        if x in f && slot in f[x].storage then Some(f[x].storage[slot]) else None {}
  }

  /** Refinement: after any writes through the overlay, every provider read (existence, balance, nonce, code
      bytes, storage) equals that of the flat state that took the same writes over the base directly. */
  lemma {:induction false} OverlayRefinesFlat(t: Tables, base: Base, f: Flat, writes: seq<(Address, Write)>)
    requires CodeTable(t) && Coherent(base) && Shows(t, base, f)
    ensures Shows(Run(t, writes), base, FlatRun(f, writes))
  {
    if writes != [] {
      var front, last := writes[..|writes| - 1], writes[|writes| - 1];
      OverlayRefinesFlat(t, base, f, front);
      RunKeepsCodeTable(t, front);
      forall x ensures ShowsAt(Run(t, writes), base, FlatRun(f, writes), x) {
        assert ShowsAt(Run(t, front), base, FlatRun(f, front), x);
        ApplyKeepsShown(Run(t, front), base, FlatRun(f, front), last.0, last.1, x);
      }
    }
  }

  /** The refinement from a fresh overlay. */
  lemma FreshOverlayRefinesFlat(base: Base, writes: seq<(Address, Write)>)
    requires Coherent(base)
    ensures Shows(Run(Tables(map[], map[]), writes), base, FlatRun(FlatBase(base), writes))
  {
    OverlayRefinesFlat(Tables(map[], map[]), base, FlatBase(base), writes);
  }
}
