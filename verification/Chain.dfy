/** The in-memory blockchain that serves as provider. Accounts are stored under an alias and
    looked up by scanning for an address. */
module Chain {
  import opened Types
  import opened Numbers

  datatype Account = Account(address: Address, nonce: U256, balance: U256, code: Bytes, storage: Slots)

  type Accounts = map<string, Account>

  /** What the provider tells about an account. */
  datatype StateAccount = StateAccount(nonce: U256, balance: U256, code: Bytes)

  datatype Block = Block(num: nat, prev: H256, time: nat)

  /** The provider calls that change accounts, and the chain's own `inc_nonce`. */
  datatype LedgerCall =
    | CreateContract(address: Address, code: Bytes)
    | UpdateAccount(address: Address, balance: U256, nonce: U256)
    | SetStorage(address: Address, key: H256, value: H256)
    | IncNonce(alias: string)

  datatype Ledger = Ledger(accounts: Accounts, counter: nat)

  function RecordOf(acc: Account): Record {
    Record(acc.nonce, acc.balance, acc.code, acc.storage)
  }

  ghost function Addresses(accounts: Accounts): set<Address> {
    set s | s in accounts :: accounts[s].address
  }

  ghost function AliasOf(accounts: Accounts, address: Address): (alias: string)
    requires address in Addresses(accounts)
    ensures alias in accounts && accounts[alias].address == address
  {
    var s :| s in accounts && accounts[s].address == address;
    s
  }

  /** What a scan for an address finds, for every address some account has. */
  ghost function ByAddress(accounts: Accounts): World {
    map a | a in Addresses(accounts) :: RecordOf(accounts[AliasOf(accounts, a)])
  }

  ghost predicate DistinctAddresses(accounts: Accounts) {
    forall s, t | s in accounts && t in accounts && accounts[s].address == accounts[t].address :: s == t
  }

  function ContractAlias(n: nat): string {
    "contract_" + Decimal(n)
  }

  lemma ContractAliasInjective(m: nat, n: nat)
    requires ContractAlias(m) == ContractAlias(n)
    ensures m == n
  {
    assert ContractAlias(m)[9..] == Decimal(m) && ContractAlias(n)[9..] == Decimal(n);
    DecimalInjective(m, n);
  }

  /** The alias spells the number in decimal. */
  lemma ContractAliasForm(n: nat)
    ensures var alias := ContractAlias(n);
      && |alias| > 9 && alias[..9] == "contract_" && AllDigits(alias[9..]) && Value(alias[9..]) == n
      && (n > 0 ==> alias[9] != '0')
  {
    DecimalDenotes(n);
    assert ContractAlias(n)[9..] == Decimal(n);
  }

  ghost predicate WellFormed(ledger: Ledger) {
    && DistinctAddresses(ledger.accounts)
    && forall n: nat | n > ledger.counter :: ContractAlias(n) !in ledger.accounts
  }

  /** The largest value of the 32-bit counter that numbers contracts. */
  const MAX_COUNTER: nat := 0x7fff_ffff

  /** Whether one more contract can be numbered. */
  predicate HasRoom(ledger: Ledger) {
    ledger.counter < MAX_COUNTER
  }

  /** The effect of one call; `HostPanic` where an `unwrap` or a checked addition fails. */
  ghost function Apply(ledger: Ledger, call: LedgerCall): Result<Ledger> {
    var accounts := ledger.accounts;
    match call
    case CreateContract(address, code) =>
      if !HasRoom(ledger) then Err(HostPanic) else
      var n := ledger.counter + 1;
      Ok(Ledger(accounts[ContractAlias(n) := Account(address, 0, 0, code, map[])], n))
    case UpdateAccount(address, balance, nonce) =>
      if address !in Addresses(accounts) then Err(HostPanic) else
      var s := AliasOf(accounts, address);
      Ok(ledger.(accounts := accounts[s := accounts[s].(balance := balance, nonce := nonce)]))
    case SetStorage(address, key, value) =>
      if address !in Addresses(accounts) then Err(HostPanic) else
      var s := AliasOf(accounts, address);
      Ok(ledger.(accounts := accounts[s := accounts[s].(storage := accounts[s].storage[key := value])]))
    case IncNonce(s) =>
      if s !in accounts || accounts[s].nonce + 1 >= U256_LIMIT then Err(HostPanic) else
      Ok(ledger.(accounts := accounts[s := accounts[s].(nonce := accounts[s].nonce + 1)]))
  }

  /** The same calls on accounts addressed directly. */
  function ApplyToWorld(world: World, call: LedgerCall): Result<World>
    requires !call.IncNonce?
  {
    match call
    case CreateContract(address, code) => Ok(world[address := Record(0, 0, code, map[])])
    case UpdateAccount(address, balance, nonce) =>
      if address !in world then Err(HostPanic) else
      Ok(world[address := world[address].(balance := balance, nonce := nonce)])
    case SetStorage(address, key, value) =>
      if address !in world then Err(HostPanic) else
      Ok(world[address := world[address].(storage := world[address].storage[key := value])])
  }

  lemma AliasUnique(accounts: Accounts, s: string)
    requires DistinctAddresses(accounts) && s in accounts
    ensures accounts[s].address in Addresses(accounts)
    ensures AliasOf(accounts, accounts[s].address) == s
  {
  }

  /** Overwriting an account in place keeps every address where it was. */
  lemma UpdatedAddresses(accounts: Accounts, s: string, acc: Account)
    requires s in accounts && acc.address == accounts[s].address
    ensures Addresses(accounts[s := acc]) == Addresses(accounts)
    ensures DistinctAddresses(accounts) ==> DistinctAddresses(accounts[s := acc])
  {
    var accounts' := accounts[s := acc];
    assert forall t | t in accounts :: accounts'[t].address == accounts[t].address;
    assert accounts'.Keys == accounts.Keys;
  }

  lemma UpdatedByAddress(accounts: Accounts, s: string, acc: Account)
    requires DistinctAddresses(accounts) && s in accounts && acc.address == accounts[s].address
    ensures DistinctAddresses(accounts[s := acc])
    ensures ByAddress(accounts[s := acc]) == ByAddress(accounts)[acc.address := RecordOf(acc)]
  {
    var accounts' := accounts[s := acc];
    UpdatedAddresses(accounts, s, acc);
    AliasUnique(accounts, s);
    AliasUnique(accounts', s);
    forall a | a in Addresses(accounts) && a != acc.address
      ensures AliasOf(accounts', a) == AliasOf(accounts, a) != s
    {
      AliasUnique(accounts', AliasOf(accounts, a));
    }
  }

  lemma InsertedAddresses(accounts: Accounts, s: string, acc: Account)
    requires s !in accounts
    ensures Addresses(accounts[s := acc]) == Addresses(accounts) + {acc.address}
    ensures DistinctAddresses(accounts) && acc.address !in Addresses(accounts)
            ==> DistinctAddresses(accounts[s := acc])
  {
    var accounts' := accounts[s := acc];
    assert forall t | t in accounts :: accounts'[t].address == accounts[t].address;
    assert accounts'.Keys == accounts.Keys + {s};
    assert accounts'[s].address == acc.address;
    assert forall t | t in accounts :: accounts[t].address in Addresses(accounts);
  }

  /** Adding an account leaves the view of every other address alone. */
  lemma ViewKept(accounts: Accounts, s: string, acc: Account, a: Address)
    requires DistinctAddresses(accounts[s := acc]) && s !in accounts
    requires a in Addresses(accounts)
    ensures a in Addresses(accounts[s := acc])
    ensures ByAddress(accounts[s := acc])[a] == ByAddress(accounts)[a]
  {
    var t := AliasOf(accounts, a);
    AliasUnique(accounts[s := acc], t);
  }

  lemma ViewsKept(accounts: Accounts, s: string, acc: Account)
    requires DistinctAddresses(accounts[s := acc]) && s !in accounts
    ensures forall a | a in ByAddress(accounts) ::
              a in ByAddress(accounts[s := acc]) && ByAddress(accounts[s := acc])[a] == ByAddress(accounts)[a]
  {
    forall a | a in ByAddress(accounts)
      ensures a in ByAddress(accounts[s := acc]) && ByAddress(accounts[s := acc])[a] == ByAddress(accounts)[a]
    {
      ViewKept(accounts, s, acc, a);
    }
  }

  lemma InsertedByAddress(accounts: Accounts, s: string, acc: Account)
    requires DistinctAddresses(accounts) && s !in accounts && acc.address !in Addresses(accounts)
    ensures DistinctAddresses(accounts[s := acc])
    ensures ByAddress(accounts[s := acc]) == ByAddress(accounts)[acc.address := RecordOf(acc)]
  {
    InsertedAddresses(accounts, s, acc);
    ViewsKept(accounts, s, acc);
    AliasUnique(accounts[s := acc], s);
  }

  /** A create is issued only for an address nobody has. */
  ghost predicate Guarded(ledger: Ledger, call: LedgerCall) {
    call.CreateContract? ==> call.address !in Addresses(ledger.accounts)
  }

  lemma NextAliasIsNew(counter: nat)
    ensures forall n: nat | n > counter + 1 :: ContractAlias(n) != ContractAlias(counter + 1)
  {
    forall n: nat | n > counter + 1 ensures ContractAlias(n) != ContractAlias(counter + 1) {
      if ContractAlias(n) == ContractAlias(counter + 1) {
        ContractAliasInjective(n, counter + 1);
      }
    }
  }

  lemma InPlaceUpdate(ledger: Ledger, s: string, acc: Account)
    requires WellFormed(ledger) && s in ledger.accounts && acc.address == ledger.accounts[s].address
    ensures WellFormed(ledger.(accounts := ledger.accounts[s := acc]))
    ensures acc.address in ByAddress(ledger.accounts)
    ensures ByAddress(ledger.accounts)[acc.address] == RecordOf(ledger.accounts[s])
    ensures ByAddress(ledger.accounts[s := acc]) == ByAddress(ledger.accounts)[acc.address := RecordOf(acc)]
  {
    AliasUnique(ledger.accounts, s);
    UpdatedByAddress(ledger.accounts, s, acc);
  }

  /** The two ways of applying a call agree once accounts are viewed by address. */
  ghost predicate Agree(after: Result<Ledger>, world: Result<World>) {
    match after
    case Ok(ledger) => WellFormed(ledger) && world == Ok(ByAddress(ledger.accounts))
    case Err(e) => world == Err(e)
  }

  lemma InsertedWellFormed(ledger: Ledger, acc: Account)
    requires WellFormed(ledger) && acc.address !in Addresses(ledger.accounts)
    ensures WellFormed(Ledger(ledger.accounts[ContractAlias(ledger.counter + 1) := acc], ledger.counter + 1))
  {
    NextAliasIsNew(ledger.counter);
    InsertedAddresses(ledger.accounts, ContractAlias(ledger.counter + 1), acc);
  }

  lemma InsertedAgrees(ledger: Ledger, acc: Account)
    requires WellFormed(ledger) && acc.address !in Addresses(ledger.accounts)
    ensures Agree(Ok(Ledger(ledger.accounts[ContractAlias(ledger.counter + 1) := acc], ledger.counter + 1)),
                  Ok(ByAddress(ledger.accounts)[acc.address := RecordOf(acc)]))
  {
    InsertedWellFormed(ledger, acc);
    InsertedByAddress(ledger.accounts, ContractAlias(ledger.counter + 1), acc);
  }

  lemma CreateAgrees(ledger: Ledger, address: Address, code: Bytes)
    requires HasRoom(ledger) && WellFormed(ledger) && address !in Addresses(ledger.accounts)
    ensures var call := CreateContract(address, code);
      Agree(Apply(ledger, call), ApplyToWorld(ByAddress(ledger.accounts), call))
  {
    var acc, call := Account(address, 0, 0, code, map[]), CreateContract(address, code);
    assert Apply(ledger, call)
        == Ok(Ledger(ledger.accounts[ContractAlias(ledger.counter + 1) := acc], ledger.counter + 1));
    assert ApplyToWorld(ByAddress(ledger.accounts), call)
        == Ok(ByAddress(ledger.accounts)[acc.address := RecordOf(acc)]);
    InsertedAgrees(ledger, acc);
  }

  lemma DuplicateBreaks(ledger: Ledger, acc: Account)
    requires WellFormed(ledger) && acc.address in Addresses(ledger.accounts)
    ensures !WellFormed(Ledger(ledger.accounts[ContractAlias(ledger.counter + 1) := acc], ledger.counter + 1))
  {
    var s, t := ContractAlias(ledger.counter + 1), AliasOf(ledger.accounts, acc.address);
    var accounts' := ledger.accounts[s := acc];
    assert s in accounts' && t in accounts' && accounts'[s].address == accounts'[t].address && s != t;
  }

  /** Everything a create does: it fails to keep the chain well formed only on a taken address. */
  lemma CreateEffect(ledger: Ledger, address: Address, code: Bytes)
    requires HasRoom(ledger) && WellFormed(ledger)
    ensures var after := Apply(ledger, CreateContract(address, code)).value;
      && Extends(ledger.accounts, after.accounts)
      && (WellFormed(after) <==> address !in ByAddress(ledger.accounts))
      && (address !in ByAddress(ledger.accounts) ==>
            ApplyToWorld(ByAddress(ledger.accounts), CreateContract(address, code)) == Ok(ByAddress(after.accounts)))
  {
    ApplyExtends(ledger, CreateContract(address, code));
    if address in Addresses(ledger.accounts) {
      DuplicateBreaks(ledger, Account(address, 0, 0, code, map[]));
    } else {
      CreateAgrees(ledger, address, code);
    }
  }

  lemma UpdateAgrees(ledger: Ledger, address: Address, balance: U256, nonce: U256)
    requires WellFormed(ledger)
    ensures var call := UpdateAccount(address, balance, nonce);
      Agree(Apply(ledger, call), ApplyToWorld(ByAddress(ledger.accounts), call))
  {
    if address in Addresses(ledger.accounts) {
      var s := AliasOf(ledger.accounts, address);
      InPlaceUpdate(ledger, s, ledger.accounts[s].(balance := balance, nonce := nonce));
    }
  }

  lemma SetStorageAgrees(ledger: Ledger, address: Address, key: H256, value: H256)
    requires WellFormed(ledger)
    ensures var call := SetStorage(address, key, value);
      Agree(Apply(ledger, call), ApplyToWorld(ByAddress(ledger.accounts), call))
  {
    if address in Addresses(ledger.accounts) {
      var s := AliasOf(ledger.accounts, address);
      InPlaceUpdate(ledger, s, ledger.accounts[s].(storage := ledger.accounts[s].storage[key := value]));
    }
  }

  lemma IncNonceKeeps(ledger: Ledger, s: string)
    requires WellFormed(ledger) && Apply(ledger, IncNonce(s)).Ok?
    ensures WellFormed(Apply(ledger, IncNonce(s)).value)
  {
  }

  /** One guarded call keeps the chain well formed and acts on the accounts by address; a create
      needs room for its number. */
  lemma ApplyKeepsWellFormed(ledger: Ledger, call: LedgerCall)
    requires WellFormed(ledger) && Guarded(ledger, call)
    ensures Apply(ledger, call).Ok? ==> WellFormed(Apply(ledger, call).value)
    ensures !call.IncNonce? && (call.CreateContract? ==> HasRoom(ledger)) ==>
              Agree(Apply(ledger, call), ApplyToWorld(ByAddress(ledger.accounts), call))
    ensures call.CreateContract? ==> (Apply(ledger, call) == Err(HostPanic) <==> !HasRoom(ledger))
  {
    match call
    case CreateContract(address, code) => if HasRoom(ledger) { CreateAgrees(ledger, address, code); }
    case UpdateAccount(address, balance, nonce) => UpdateAgrees(ledger, address, balance, nonce);
    case SetStorage(address, key, value) => SetStorageAgrees(ledger, address, key, value);
    case IncNonce(s) => if Apply(ledger, call).Ok? { IncNonceKeeps(ledger, s); }
  }

  ghost function ApplyAll(ledger: Ledger, calls: seq<LedgerCall>): Result<Ledger>
    decreases |calls|
  {
    if calls == [] then Ok(ledger) else
    match Apply(ledger, calls[0])
    case Ok(next) => ApplyAll(next, calls[1..])
    case Err(e) => Err(e)
  }

  ghost predicate AllGuarded(ledger: Ledger, calls: seq<LedgerCall>)
    decreases |calls|
  {
    calls == [] ||
    (Guarded(ledger, calls[0]) &&
     (Apply(ledger, calls[0]).Ok? ==> AllGuarded(Apply(ledger, calls[0]).value, calls[1..])))
  }

  /** Which address each alias stands for. */
  ghost function Roster(accounts: Accounts): set<(string, Address)> {
    set s | s in accounts :: (s, accounts[s].address)
  }

  /** No account is removed and no alias comes to stand for another address. */
  ghost predicate Extends(before: Accounts, after: Accounts) {
    Roster(before) <= Roster(after)
  }

  lemma UpdateExtends(accounts: Accounts, s: string, acc: Account)
    requires s in accounts ==> acc.address == accounts[s].address
    ensures Extends(accounts, accounts[s := acc])
  {
    var after := accounts[s := acc];
    forall t | t in accounts ensures (t, accounts[t].address) in Roster(after) {
      assert t in after && after[t].address == accounts[t].address;
    }
  }

  lemma DuplicatesPersist(before: Accounts, after: Accounts)
    requires Extends(before, after) && !DistinctAddresses(before)
    ensures !DistinctAddresses(after)
  {
    var s, t :| s in before && t in before && before[s].address == before[t].address && s != t;
    assert (s, before[s].address) in Roster(before) && (t, before[t].address) in Roster(before);
    assert s in after && t in after && after[s].address == after[t].address;
  }

  lemma ApplyExtends(ledger: Ledger, call: LedgerCall)
    requires Apply(ledger, call).Ok?
    requires forall n: nat | n > ledger.counter :: ContractAlias(n) !in ledger.accounts
    ensures Extends(ledger.accounts, Apply(ledger, call).value.accounts)
    ensures var after := Apply(ledger, call).value;
      forall n: nat | n > after.counter :: ContractAlias(n) !in after.accounts
  {
    var accounts := ledger.accounts;
    match call
    case CreateContract(address, code) =>
      NextAliasIsNew(ledger.counter);
      UpdateExtends(accounts, ContractAlias(ledger.counter + 1), Account(address, 0, 0, code, map[]));
    case UpdateAccount(address, balance, nonce) =>
      var s := AliasOf(accounts, address);
      UpdateExtends(accounts, s, accounts[s].(balance := balance, nonce := nonce));
    case SetStorage(address, key, value) =>
      var s := AliasOf(accounts, address);
      UpdateExtends(accounts, s, accounts[s].(storage := accounts[s].storage[key := value]));
    case IncNonce(s) => UpdateExtends(accounts, s, accounts[s].(nonce := accounts[s].nonce + 1));
  }

  /** Over any run of calls no alias is reused, and addresses stay distinct exactly when every
      create was issued for an address that no account had at that moment. */
  lemma {:induction false} AddressesStayDistinct(ledger: Ledger, calls: seq<LedgerCall>)
    requires forall n: nat | n > ledger.counter :: ContractAlias(n) !in ledger.accounts
    requires ApplyAll(ledger, calls).Ok?
    ensures Extends(ledger.accounts, ApplyAll(ledger, calls).value.accounts)
    ensures WellFormed(ApplyAll(ledger, calls).value)
       <==> DistinctAddresses(ledger.accounts) && AllGuarded(ledger, calls)
    decreases |calls|
  {
    if calls != [] {
      var next := Apply(ledger, calls[0]).value;
      ApplyExtends(ledger, calls[0]);
      AddressesStayDistinct(next, calls[1..]);
      if DistinctAddresses(ledger.accounts) && Guarded(ledger, calls[0]) {
        ApplyKeepsWellFormed(ledger, calls[0]);
      } else if DistinctAddresses(ledger.accounts) {
        var s, t := ContractAlias(ledger.counter + 1), AliasOf(ledger.accounts, calls[0].address);
        assert next.accounts[s].address == next.accounts[t].address && s != t;
      } else {
        DuplicatesPersist(ledger.accounts, next.accounts);
      }
    } else {
      assert ApplyAll(ledger, calls) == Ok(ledger);
    }
  }

  // ----- what a caller may have done to a chain -----

  /** `after` is what some guarded calls make of `before`. */
  ghost predicate Written(before: Ledger, after: Ledger) {
    exists calls :: AllGuarded(before, calls) && ApplyAll(before, calls) == Ok(after)
  }

  lemma WrittenNothing(ledger: Ledger)
    ensures Written(ledger, ledger)
  {
    assert AllGuarded(ledger, []) && ApplyAll(ledger, []) == Ok(ledger);
  }

  lemma OneCall(ledger: Ledger, call: LedgerCall)
    requires Apply(ledger, call).Ok?
    ensures AllGuarded(ledger, [call]) <==> Guarded(ledger, call)
    ensures ApplyAll(ledger, [call]) == Apply(ledger, call)
  {
    var next := Apply(ledger, call).value;
    assert [call][1..] == [];
    assert AllGuarded(next, []) && ApplyAll(next, []) == Ok(next);
  }

  lemma {:induction false} MoreCalls(ledger: Ledger, calls: seq<LedgerCall>, more: seq<LedgerCall>)
    requires ApplyAll(ledger, calls).Ok?
    ensures var next := ApplyAll(ledger, calls).value;
      && ApplyAll(ledger, calls + more) == ApplyAll(next, more)
      && (AllGuarded(ledger, calls + more) <==> AllGuarded(ledger, calls) && AllGuarded(next, more))
    decreases |calls|
  {
    if calls == [] {
      assert calls + more == more;
    } else {
      assert (calls + more)[1..] == calls[1..] + more;
      MoreCalls(Apply(ledger, calls[0]).value, calls[1..], more);
    }
  }

  lemma WrittenOn(first: Ledger, second: Ledger, third: Ledger)
    requires Written(first, second) && Written(second, third)
    ensures Written(first, third)
  {
    var calls :| AllGuarded(first, calls) && ApplyAll(first, calls) == Ok(second);
    var more :| AllGuarded(second, more) && ApplyAll(second, more) == Ok(third);
    MoreCalls(first, calls, more);
  }

  lemma WrittenBy(first: Ledger, second: Ledger, call: LedgerCall, third: Ledger)
    requires Written(first, second) && Guarded(second, call) && Apply(second, call) == Ok(third)
    ensures Written(first, third)
  {
    OneCall(second, call);
    WrittenOn(first, second, third);
  }

  /** The aliases numbered above `low`, up to `high`. */
  function Aliases(low: nat, high: nat): set<string> {
    set n | low < n <= high :: ContractAlias(n)
  }

  lemma CallAliases(before: Ledger, call: LedgerCall)
    requires Apply(before, call).Ok?
    ensures var after := Apply(before, call).value;
      && before.counter <= after.counter
      && after.accounts.Keys == before.accounts.Keys + Aliases(before.counter, after.counter)
      && (before.counter <= MAX_COUNTER ==> after.counter <= MAX_COUNTER)
  {
    if call.CreateContract? {
      assert Aliases(before.counter, before.counter + 1) == {ContractAlias(before.counter + 1)};
    } else {
      assert Aliases(before.counter, before.counter) == {};
    }
  }

  /** Calls add exactly the aliases they use up the numbers of, in order. */
  lemma {:induction false} CallsAliases(before: Ledger, calls: seq<LedgerCall>)
    requires ApplyAll(before, calls).Ok?
    ensures var after := ApplyAll(before, calls).value;
      && before.counter <= after.counter
      && after.accounts.Keys == before.accounts.Keys + Aliases(before.counter, after.counter)
      && (before.counter <= MAX_COUNTER ==> after.counter <= MAX_COUNTER)
    decreases |calls|
  {
    if calls == [] {
      assert Aliases(before.counter, before.counter) == {};
    } else {
      var next, after := Apply(before, calls[0]).value, ApplyAll(before, calls).value;
      CallAliases(before, calls[0]);
      CallsAliases(next, calls[1..]);
      assert Aliases(before.counter, after.counter)
          == Aliases(before.counter, next.counter) + Aliases(next.counter, after.counter);
    }
  }

  /** Whatever guarded calls do, addresses stay distinct and future aliases free, no account is lost or
      changes its address, and new accounts take the next aliases. */
  lemma WrittenKeeps(before: Ledger, after: Ledger)
    requires WellFormed(before) && Written(before, after)
    ensures WellFormed(after) && Extends(before.accounts, after.accounts)
    ensures before.counter <= after.counter && (before.counter <= MAX_COUNTER ==> after.counter <= MAX_COUNTER)
    ensures after.accounts.Keys == before.accounts.Keys + Aliases(before.counter, after.counter)
  {
    var calls :| AllGuarded(before, calls) && ApplyAll(before, calls) == Ok(after);
    AddressesStayDistinct(before, calls);
    CallsAliases(before, calls);
  }

  function AccountAt(a: Address, r: Record): Account {
    Account(a, r.nonce, r.balance, r.code, r.storage)
  }

  /** The address that `alias` stands for once `a` has been added to `accounts`. */
  function AddressUnder(accounts: Accounts, alias: string, a: Address): Address {
    if alias in accounts then accounts[alias].address else a
  }

  ghost predicate Adds(before: Ledger, world: World, a: Address) {
    a in world && a !in Addresses(before.accounts)
  }

  /** `after` is `before` with what `world` says about each account in its old place, and `a`, if it is
      new, under the next alias. */
  ghost predicate Placed(before: Ledger, world: World, a: Address, after: Ledger) {
    && after.counter == before.counter + (if Adds(before, world, a) then 1 else 0)
    && after.accounts.Keys == before.accounts.Keys + Aliases(before.counter, after.counter)
    && forall s | s in after.accounts ::
         var b := AddressUnder(before.accounts, s, a);
         b in world && after.accounts[s] == AccountAt(b, world[b])
  }

  lemma OldPlace(before: Ledger, after: Ledger, s: string)
    requires WellFormed(after) && Extends(before.accounts, after.accounts) && s in before.accounts
    ensures s in after.accounts && after.accounts[s].address == before.accounts[s].address
  {
    assert (s, before.accounts[s].address) in Roster(before.accounts);
  }

  lemma NewPlace(before: Ledger, after: Ledger, s: string)
    requires WellFormed(after) && Extends(before.accounts, after.accounts)
    requires s in after.accounts && s !in before.accounts
    ensures after.accounts[s].address in Addresses(after.accounts) - Addresses(before.accounts)
  {
    var b := after.accounts[s].address;
    if b in Addresses(before.accounts) {
      OldPlace(before, after, AliasOf(before.accounts, b));
    }
  }

  /** Every number used up since `before` is that of a new account for `a`. */
  lemma NumberedNew(before: Ledger, after: Ledger, a: Address, n: nat)
    requires WellFormed(after) && Extends(before.accounts, after.accounts)
    requires after.accounts.Keys == before.accounts.Keys + Aliases(before.counter, after.counter)
    requires forall k: nat | k > before.counter :: ContractAlias(k) !in before.accounts
    requires Addresses(after.accounts) <= Addresses(before.accounts) + {a}
    requires before.counter < n <= after.counter
    ensures ContractAlias(n) in after.accounts && after.accounts[ContractAlias(n)].address == a
    ensures a in Addresses(after.accounts) && a !in Addresses(before.accounts)
  {
    assert ContractAlias(n) in Aliases(before.counter, after.counter);
    NewPlace(before, after, ContractAlias(n));
  }

  lemma NoneNumbered(before: Ledger, after: Ledger, a: Address)
    requires WellFormed(after) && Extends(before.accounts, after.accounts)
    requires after.accounts.Keys == before.accounts.Keys
    ensures Addresses(after.accounts) == Addresses(before.accounts)
  {
    forall s | s in before.accounts ensures after.accounts[s].address == before.accounts[s].address {
      OldPlace(before, after, s);
    }
  }

  lemma AliasesDiffer(m: nat, n: nat)
    requires m != n
    ensures ContractAlias(m) != ContractAlias(n)
  {
    if ContractAlias(m) == ContractAlias(n) { ContractAliasInjective(m, n); }
  }

  lemma OnlyOneNumbered(before: Ledger, after: Ledger, a: Address)
    requires WellFormed(before) && WellFormed(after) && Extends(before.accounts, after.accounts)
    requires after.accounts.Keys == before.accounts.Keys + Aliases(before.counter, after.counter)
    requires Addresses(after.accounts) <= Addresses(before.accounts) + {a}
    ensures after.counter <= before.counter + 1
  {
    if after.counter > before.counter + 1 {
      NumberedNew(before, after, a, before.counter + 1);
      NumberedNew(before, after, a, before.counter + 2);
      AliasesDiffer(before.counter + 1, before.counter + 2);
    }
  }

  lemma ByAddressKeys(accounts: Accounts)
    ensures ByAddress(accounts).Keys == Addresses(accounts)
  {
  }

  lemma AtMostOneNew(before: Ledger, after: Ledger, a: Address)
    requires WellFormed(before) && Written(before, after)
    requires Addresses(after.accounts) <= Addresses(before.accounts) + {a}
    ensures after.counter == before.counter + (if Adds(before, ByAddress(after.accounts), a) then 1 else 0)
  {
    WrittenKeeps(before, after);
    OnlyOneNumbered(before, after, a);
    ByAddressKeys(after.accounts);
    if after.counter == before.counter {
      assert after.accounts.Keys == before.accounts.Keys by { assert Aliases(before.counter, after.counter) == {}; }
      NoneNumbered(before, after, a);
    } else {
      NumberedNew(before, after, a, before.counter + 1);
    }
  }

  /** If at most `a` is new, the stored accounts follow from the view by address, aliases and all. */
  lemma PlacedExactly(before: Ledger, after: Ledger, a: Address)
    requires WellFormed(before) && Written(before, after)
    requires Addresses(after.accounts) <= Addresses(before.accounts) + {a}
    ensures Placed(before, ByAddress(after.accounts), a, after)
  {
    WrittenKeeps(before, after);
    AtMostOneNew(before, after, a);
    forall s | s in after.accounts
      ensures var b := AddressUnder(before.accounts, s, a);
        b in ByAddress(after.accounts) && after.accounts[s] == AccountAt(b, ByAddress(after.accounts)[b])
    {
      AliasUnique(after.accounts, s);
      if s in before.accounts { OldPlace(before, after, s); } else { NewPlace(before, after, s); }
    }
  }

  /** There is only one such ledger. */
  lemma PlacedOnce(before: Ledger, world: World, a: Address, after: Ledger, other: Ledger)
    requires Placed(before, world, a, after) && Placed(before, world, a, other)
    ensures after == other
  {
    assert after.accounts == other.accounts;
  }

  const AUTHOR_ALIAS := "alice"
  const BLOCK_GAS_LIMIT: U256 := 1000000

  function HashesOf(blocks: seq<Block>, blockHash: Block -> H256): (hashes: seq<H256>)
    ensures |hashes| == |blocks|
    ensures forall i | 0 <= i < |blocks| :: hashes[i] == blockHash(blocks[i])
  {
    if blocks == [] then [] else HashesOf(blocks[..|blocks| - 1], blockHash) + [blockHash(blocks[|blocks| - 1])]
  }

  /** Every block links to the one before it. */
  ghost predicate LinkedBlocks(blocks: seq<Block>, blockHash: Block -> H256) {
    && blocks != []
    && forall i | 0 <= i < |blocks| ::
         blocks[i].num == i && (i > 0 ==> blocks[i].prev == blockHash(blocks[i - 1]))
  }

  class Blockchain {
    const blockHash: Block -> H256
    var blocks: seq<Block>
    var accounts: Accounts
    var counter: nat

    ghost function TheLedger(): Ledger
      reads this
    {
      Ledger(accounts, counter)
    }

    ghost function TheWorld(): World
      reads this
    {
      ByAddress(accounts)
    }

    /** The block data contracts can ask for. */
    ghost function TheBlocks(): BlockInfo
      reads this
      requires AUTHOR_ALIAS in accounts
    {
      BlockInfo(HashesOf(blocks, blockHash), accounts[AUTHOR_ALIAS].address)
    }

    ghost predicate Linked()
      reads this
    {
      LinkedBlocks(blocks, blockHash)
    }

    ghost predicate Valid()
      reads this
    {
      WellFormed(TheLedger()) && counter <= MAX_COUNTER && Linked() && AUTHOR_ALIAS in accounts
    }

    /** The genesis chain with its five named accounts. */
    constructor (blockHash: Block -> H256, time: nat, alice: Address, bob: Address, carol: Address,
                 dave: Address, naga: Address)
      ensures this.blockHash == blockHash && counter == 0 && |blocks| == 1
      ensures Linked()
      ensures Valid() <==> AllDifferent([alice, bob, carol, dave, naga])
      ensures accounts == Genesis(alice, bob, carol, dave, naga) && blocks == [Block(0, ZERO_HASH, time)]
      ensures accounts.Keys == {"alice", "bob", "carol", "dave", "naga"}
      ensures accounts["alice"].address == alice && accounts["bob"].address == bob
      ensures accounts["carol"].address == carol && accounts["dave"].address == dave
      ensures accounts["naga"].address == naga
      ensures TheWorld().Keys == {alice, bob, carol, dave, naga}
      ensures forall s | s in accounts :: RecordOf(accounts[s]) == Record(0, 1000000, [], map[])
    {
      this.blockHash := blockHash;
      blocks := [Block(0, ZERO_HASH, time)];
      counter := 0;
      accounts := Genesis(alice, bob, carol, dave, naga);
      new;
      GenesisAddresses(alice, bob, carol, dave, naga);
      GenesisDistinct(alice, bob, carol, dave, naga);
      GenesisAliases(alice, bob, carol, dave, naga);
      GenesisRecords(alice, bob, carol, dave, naga);
    }

    /** The scan behind every lookup, in whatever order the map yields its entries. */
    method Scan(address: Address) returns (alias: Option<string>)
      ensures alias.Some? <==> address in Addresses(accounts)
      ensures alias.Some? ==> alias.value in accounts && accounts[alias.value].address == address
      ensures alias.Some? && DistinctAddresses(accounts) ==> alias.value == AliasOf(accounts, address)
    {
      var remaining := accounts.Keys;
      while remaining != {}
        invariant remaining <= accounts.Keys
        invariant forall s | s in accounts && s !in remaining :: accounts[s].address != address
        decreases remaining
      {
        var s :| s in remaining;
        if accounts[s].address == address {
          return Some(s);
        }
        remaining := remaining - {s};
      }
      return None;
    }

    method Exist(address: Address) returns (r: bool)
      ensures r <==> address in TheWorld()
    {
      var alias := Scan(address);
      return alias.Some?;
    }

    method GetAccount(address: Address) returns (r: Result<StateAccount>)
      requires Valid()
      ensures address !in TheWorld() ==> r == Err(InvalidAddress(address))
      ensures address in TheWorld() ==> var acc := TheWorld()[address];
                r == Ok(StateAccount(acc.nonce, acc.balance, acc.code))
    {
      var alias := Scan(address);
      match alias {
        case Some(s) => r := Ok(StateAccount(accounts[s].nonce, accounts[s].balance, accounts[s].code));
        case None => r := Err(InvalidAddress(address));
      }
    }

    method StorageAt(address: Address, key: H256) returns (r: Result<H256>)
      requires Valid()
      ensures address !in TheWorld() ==> r == Err(InvalidAddress(address))
      ensures address in TheWorld() && key !in TheWorld()[address].storage ==> r == Err(InvalidStorageKey(key))
      ensures address in TheWorld() && key in TheWorld()[address].storage ==>
                r == Ok(TheWorld()[address].storage[key])
    {
      var alias := Scan(address);
      match alias {
        case None => r := Err(InvalidAddress(address));
        case Some(s) =>
          AliasUnique(accounts, s);
          if key in accounts[s].storage {
            r := Ok(accounts[s].storage[key]);
          } else {
            r := Err(InvalidStorageKey(key));
          }
      }
    }

    /** Inserts without looking whether the address is taken; panics when the counter is used up. */
    method AddContract(address: Address, code: Bytes) returns (r: Result<()>)
      requires Valid()
      modifies this`accounts, this`counter
      ensures r == if old(counter) < 0x7fff_ffff then Ok(()) else Err(HostPanic)
      ensures r.Err? ==> TheLedger() == old(TheLedger())
      ensures r.Ok? ==> Apply(old(TheLedger()), CreateContract(address, code)) == Ok(TheLedger())
      ensures r.Ok? ==> (Valid() <==> address !in old(TheWorld()))
      ensures r.Ok? && address !in old(TheWorld()) ==>
                ApplyToWorld(old(TheWorld()), CreateContract(address, code)) == Ok(TheWorld())
      ensures Extends(old(accounts), accounts)
    {
      ghost var before := TheLedger();
      if counter >= MAX_COUNTER {
        return Err(HostPanic);
      }
      var name := ContractAlias(counter + 1);
      accounts := accounts[name := Account(address, 0, 0, code, map[])];
      counter := counter + 1;
      assert Apply(before, CreateContract(address, code)) == Ok(TheLedger());
      assert Linked() && AUTHOR_ALIAS in accounts;
      CreateEffect(before, address, code);
      assert Valid() <==> WellFormed(TheLedger());
      return Ok(());
    }

    method PutStorage(address: Address, key: H256, value: H256) returns (r: Result<()>)
      requires Valid()
      modifies this`accounts
      ensures Valid() && Extends(old(accounts), accounts)
      ensures match r
              case Ok(_) => ApplyToWorld(old(TheWorld()), SetStorage(address, key, value)) == Ok(TheWorld())
              case Err(e) => ApplyToWorld(old(TheWorld()), SetStorage(address, key, value)) == Err(e)
                             && accounts == old(accounts)
      ensures r.Ok? ==> Apply(old(TheLedger()), SetStorage(address, key, value)) == Ok(TheLedger())
    {
      ApplyKeepsWellFormed(TheLedger(), SetStorage(address, key, value));
      var alias := Scan(address);
      match alias {
        case None => r := Err(HostPanic);
        case Some(s) =>
          UpdateExtends(accounts, s, accounts[s].(storage := accounts[s].storage[key := value]));
          accounts := accounts[s := accounts[s].(storage := accounts[s].storage[key := value])];
          r := Ok(());
      }
    }

    method PutAccount(address: Address, balance: U256, nonce: U256) returns (r: Result<()>)
      requires Valid()
      modifies this`accounts
      ensures Valid() && Extends(old(accounts), accounts)
      ensures match r
              case Ok(_) => ApplyToWorld(old(TheWorld()), UpdateAccount(address, balance, nonce)) == Ok(TheWorld())
              case Err(e) => ApplyToWorld(old(TheWorld()), UpdateAccount(address, balance, nonce)) == Err(e)
                             && accounts == old(accounts)
      ensures r.Ok? ==> Apply(old(TheLedger()), UpdateAccount(address, balance, nonce)) == Ok(TheLedger())
    {
      ApplyKeepsWellFormed(TheLedger(), UpdateAccount(address, balance, nonce));
      var alias := Scan(address);
      match alias {
        case None => r := Err(HostPanic);
        case Some(s) =>
          UpdateExtends(accounts, s, accounts[s].(balance := balance, nonce := nonce));
          accounts := accounts[s := accounts[s].(balance := balance, nonce := nonce)];
          r := Ok(());
      }
    }

    method IncreaseNonce(alias: string) returns (r: Result<()>)
      requires Valid()
      modifies this`accounts
      ensures var most := 0xffffffffffffffff_ffffffffffffffff_ffffffffffffffff_ffffffffffffffff;
        r.Ok? <==> alias in old(accounts) && old(accounts)[alias].nonce < most
      ensures r.Ok? ==> var acc := old(accounts)[alias];
        accounts == old(accounts)[alias := acc.(nonce := acc.nonce + 1)]
      ensures Valid() && Extends(old(accounts), accounts)
      ensures match r
              case Ok(_) => Apply(old(TheLedger()), IncNonce(alias)) == Ok(TheLedger())
              case Err(e) => Apply(old(TheLedger()), IncNonce(alias)) == Err(e) && accounts == old(accounts)
    {
      ApplyKeepsWellFormed(TheLedger(), IncNonce(alias));
      if alias !in accounts || accounts[alias].nonce + 1 >= U256_LIMIT {
        return Err(HostPanic);
      }
      UpdateExtends(accounts, alias, accounts[alias].(nonce := accounts[alias].nonce + 1));
      accounts := accounts[alias := accounts[alias].(nonce := accounts[alias].nonce + 1)];
      return Ok(());
    }

    method BlockHash(num: u64) returns (r: Result<H256>)
      requires Valid()
      ensures r == if num < |TheBlocks().hashes| then Ok(TheBlocks().hashes[num]) else Err(HostPanic)
    {
      if num >= |blocks| {
        return Err(HostPanic);
      }
      return Ok(blockHash(blocks[num]));
    }

    method BlockNumber() returns (num: nat)
      requires Valid()
      ensures num == |TheBlocks().hashes| - 1
    {
      num := blocks[|blocks| - 1].num;
    }

    method BlockAuthor() returns (author: Address)
      requires Valid()
      ensures author == TheBlocks().author == accounts["alice"].address
    {
      author := accounts[AUTHOR_ALIAS].address;
    }

    method Commit(time: nat)
      requires Valid()
      modifies this`blocks
      ensures Valid()
      ensures |blocks| == |old(blocks)| + 1 && blocks[..|old(blocks)|] == old(blocks)
      ensures blocks[|old(blocks)|] == Block(|old(blocks)|, blockHash(old(blocks)[|old(blocks)| - 1]), time)
    {
      blocks := blocks + [Block(|blocks|, blockHash(blocks[|blocks| - 1]), time)];
    }
  }

  function Genesis(alice: Address, bob: Address, carol: Address, dave: Address, naga: Address): Accounts {
    map[
      "alice" := Account(alice, 0, 1000000, [], map[]),
      "bob" := Account(bob, 0, 1000000, [], map[]),
      "carol" := Account(carol, 0, 1000000, [], map[]),
      "dave" := Account(dave, 0, 1000000, [], map[]),
      "naga" := Account(naga, 0, 1000000, [], map[])]
  }

  predicate AllDifferent(addresses: seq<Address>) {
    forall i, j | 0 <= i < j < |addresses| :: addresses[i] != addresses[j]
  }

  lemma GenesisAddresses(alice: Address, bob: Address, carol: Address, dave: Address, naga: Address)
    ensures Addresses(Genesis(alice, bob, carol, dave, naga)) == {alice, bob, carol, dave, naga}
  {
    var accounts := Genesis(alice, bob, carol, dave, naga);
    assert accounts.Keys == {"alice", "bob", "carol", "dave", "naga"};
  }

  lemma GenesisRecords(alice: Address, bob: Address, carol: Address, dave: Address, naga: Address)
    ensures var accounts := Genesis(alice, bob, carol, dave, naga);
      AUTHOR_ALIAS in accounts && forall s | s in accounts :: RecordOf(accounts[s]) == Record(0, 1000000, [], map[])
  {
  }

  const GENESIS_NAMES: seq<string> := ["alice", "bob", "carol", "dave", "naga"]

  lemma GenesisEntries(alice: Address, bob: Address, carol: Address, dave: Address, naga: Address)
    ensures var accounts, addresses := Genesis(alice, bob, carol, dave, naga), [alice, bob, carol, dave, naga];
      && (forall i | 0 <= i < 5 :: GENESIS_NAMES[i] in accounts && accounts[GENESIS_NAMES[i]].address == addresses[i])
      && (forall s | s in accounts :: s in GENESIS_NAMES)
      && (forall i, j | 0 <= i < j < 5 :: GENESIS_NAMES[i] != GENESIS_NAMES[j])
  {
  }

  lemma GenesisDistinct(alice: Address, bob: Address, carol: Address, dave: Address, naga: Address)
    ensures DistinctAddresses(Genesis(alice, bob, carol, dave, naga))
       <==> AllDifferent([alice, bob, carol, dave, naga])
  {
    var accounts := Genesis(alice, bob, carol, dave, naga);
    GenesisEntries(alice, bob, carol, dave, naga);
    NamedDistinct(accounts, GENESIS_NAMES, [alice, bob, carol, dave, naga]);
  }

  lemma NamedDistinct(accounts: Accounts, names: seq<string>, addresses: seq<Address>)
    requires |names| == |addresses|
    requires forall i | 0 <= i < |names| :: names[i] in accounts && accounts[names[i]].address == addresses[i]
    requires forall s | s in accounts :: s in names
    requires forall i, j | 0 <= i < j < |names| :: names[i] != names[j]
    ensures DistinctAddresses(accounts) <==> AllDifferent(addresses)
  {
    if AllDifferent(addresses) {
      forall s, t | s in accounts && t in accounts && accounts[s].address == accounts[t].address ensures s == t {
        var i :| 0 <= i < |names| && names[i] == s;
        var j :| 0 <= j < |names| && names[j] == t;
        assert addresses[i] == addresses[j];
      }
    }
  }

  lemma GenesisAliases(alice: Address, bob: Address, carol: Address, dave: Address, naga: Address)
    ensures forall n: nat :: ContractAlias(n) !in Genesis(alice, bob, carol, dave, naga)
  {
    forall n: nat ensures ContractAlias(n) !in Genesis(alice, bob, carol, dave, naga) {
      assert |ContractAlias(n)| > 9;
    }
  }
}
