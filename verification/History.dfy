/** Histories of a chain: transactions, nonce increments and block commits in any order. */
module Histories {
  import opened Types
  import opened Chain
  import opened Preimages
  import opened Execution
  import opened Theorems

  /** What a chain stores. */
  datatype Site = Site(ledger: Ledger, blocks: seq<Block>)

  /** The foreign parts, which do not change. */
  datatype Foreign = Foreign(keccak: Hasher, load: Bytes -> Option<Module>, blockHash: Block -> H256)

  datatype Event =
    | Transact(tx: Transaction)
    | IncrementNonce(alias: string)
    | CommitBlock(time: nat)

  /** What makes a chain sound: distinct addresses, free aliases to come, linked blocks, an author. */
  ghost predicate Sound(foreign: Foreign, site: Site) {
    && WellFormed(site.ledger) && site.ledger.counter <= MAX_COUNTER && AUTHOR_ALIAS in site.ledger.accounts
    && LinkedBlocks(site.blocks, foreign.blockHash)
  }

  ghost function WorldAt(site: Site): World {
    ByAddress(site.ledger.accounts)
  }

  function AuthorAt(site: Site): Address {
    if AUTHOR_ALIAS in site.ledger.accounts then site.ledger.accounts[AUTHOR_ALIAS].address else Zeros(20)
  }

  /** What a transaction meets at that point. */
  function HostAt(foreign: Foreign, site: Site): Host {
    Host(foreign.keccak, foreign.load, BlockInfo(HashesOf(site.blocks, foreign.blockHash), AuthorAt(site)),
         site.ledger.counter)
  }

  function NextBlock(foreign: Foreign, blocks: seq<Block>, time: nat): Block {
    Block(|blocks|, if blocks == [] then ZERO_HASH else foreign.blockHash(blocks[|blocks| - 1]), time)
  }

  /** A transaction makes guarded provider calls, and its outcome is that of the specification. */
  ghost predicate Executes(foreign: Foreign, before: Site, after: Site, tx: Transaction, r: Result<ResultData>) {
    && after.blocks == before.blocks
    && Written(before.ledger, after.ledger)
    && Outcome(WorldAt(after), r) == ExecuteSpec(WorldAt(before), tx, HostAt(foreign, before))
  }

  /** What each event does to the chain. A history ends with the first nonce increment that panics. */
  ghost predicate EventStep(foreign: Foreign, before: Site, after: Site, event: Event) {
    match event
    case Transact(tx) => exists r :: Executes(foreign, before, after, tx, r)
    case IncrementNonce(s) => Apply(before.ledger, IncNonce(s)) == Ok(after.ledger) && after.blocks == before.blocks
    case CommitBlock(time) => after == before.(blocks := before.blocks + [NextBlock(foreign, before.blocks, time)])
  }

  // ----- the objects take these steps -----

  ghost function SiteOf(provider: Blockchain): Site
    reads provider
  {
    Site(provider.TheLedger(), provider.blocks)
  }

  /** Performs one event on the chain. */
  method Perform(provider: Blockchain, event: Event, keccak: Hasher, load: Bytes -> Option<Module>)
    returns (r: Result<()>)
    requires provider.Valid() && (event.Transact? ==> |event.tx.args| < U64_LIMIT)
    modifies provider`accounts, provider`counter, provider`blocks
    ensures provider.Valid() && Sound(Foreign(keccak, load, provider.blockHash), SiteOf(provider))
    ensures var foreign, before := Foreign(keccak, load, provider.blockHash), old(SiteOf(provider));
      match r
      case Ok(_) => EventStep(foreign, before, SiteOf(provider), event)
      case Err(_) => SiteOf(provider) == before
  {
    ghost var foreign, before := Foreign(keccak, load, provider.blockHash), SiteOf(provider);
    r := Ok(());
    match event
    case Transact(tx) =>
      var result := Execute(provider, tx, keccak, load);
      assert Executes(foreign, before, SiteOf(provider), tx, result);
    case IncrementNonce(s) => r := provider.IncreaseNonce(s);
    case CommitBlock(time) => provider.Commit(time);
  }

  // ----- whole histories -----

  /** Consecutive states of a chain. */
  ghost predicate IsHistory(foreign: Foreign, sites: seq<Site>, events: seq<Event>) {
    && |sites| == |events| + 1
    && forall i | 0 <= i < |events| :: EventStep(foreign, sites[i], sites[i + 1], events[i])
  }

  /** A chain whose accounts guarded calls have worked on. */
  lemma WrittenStaysSound(foreign: Foreign, before: Site, after: Site)
    requires Sound(foreign, before) && Written(before.ledger, after.ledger) && after.blocks == before.blocks
    ensures Sound(foreign, after) && Extends(before.ledger.accounts, after.ledger.accounts)
  {
    WrittenKeeps(before.ledger, after.ledger);
  }

  lemma IncrementWritten(before: Ledger, after: Ledger, s: string)
    requires Apply(before, IncNonce(s)) == Ok(after)
    ensures Written(before, after)
  {
    WrittenNothing(before);
    WrittenBy(before, before, IncNonce(s), after);
  }

  /** Every event keeps a sound chain sound, and loses or moves no account. */
  lemma EventStaysSound(foreign: Foreign, before: Site, after: Site, event: Event)
    requires Sound(foreign, before) && EventStep(foreign, before, after, event)
    ensures Sound(foreign, after) && Extends(before.ledger.accounts, after.ledger.accounts)
  {
    match event
    case Transact(_) => WrittenStaysSound(foreign, before, after);
    case IncrementNonce(s) =>
      IncrementWritten(before.ledger, after.ledger, s);
      WrittenStaysSound(foreign, before, after);
    case CommitBlock(_) =>
  }

  lemma ExtendsAcross(a: Accounts, b: Accounts, c: Accounts)
    requires Extends(a, b) && Extends(b, c)
    ensures Extends(a, c)
  {
  }

  /** From a sound chain on, at every point of every history addresses are distinct, the aliases to come
      are free and the blocks are linked; and no account is lost or changes its address, whatever the
      contracts do. */
  lemma {:induction false} HistoryStaysSound(foreign: Foreign, sites: seq<Site>, events: seq<Event>, i: nat)
    requires IsHistory(foreign, sites, events) && i < |sites| && Sound(foreign, sites[0])
    ensures Sound(foreign, sites[i])
    ensures Extends(sites[0].ledger.accounts, sites[i].ledger.accounts)
    decreases i
  {
    if i > 0 {
      HistoryStaysSound(foreign, sites, events, i - 1);
      EventStaysSound(foreign, sites[i - 1], sites[i], events[i - 1]);
      ExtendsAcross(sites[0].ledger.accounts, sites[i - 1].ledger.accounts, sites[i].ledger.accounts);
    }
  }

  /** The chain as the five genesis accounts start it. */
  function GenesisSite(time: nat, alice: Address, bob: Address, carol: Address, dave: Address, naga: Address): Site {
    Site(Ledger(Genesis(alice, bob, carol, dave, naga), 0), [Block(0, ZERO_HASH, time)])
  }

  /** From genesis on, addresses are unique in every history exactly if the five first ones are. */
  lemma UniqueSinceGenesis(foreign: Foreign, sites: seq<Site>, events: seq<Event>, time: nat, addresses: seq<Address>)
    requires |addresses| == 5 && IsHistory(foreign, sites, events)
    requires sites[0] == GenesisSite(time, addresses[0], addresses[1], addresses[2], addresses[3], addresses[4])
    ensures (forall i | 0 <= i < |sites| :: DistinctAddresses(sites[i].ledger.accounts)) <==> AllDifferent(addresses)
  {
    GenesisDistinct(addresses[0], addresses[1], addresses[2], addresses[3], addresses[4]);
    GenesisAliases(addresses[0], addresses[1], addresses[2], addresses[3], addresses[4]);
    assert addresses == [addresses[0], addresses[1], addresses[2], addresses[3], addresses[4]];
    if AllDifferent(addresses) {
      forall i | 0 <= i < |sites| ensures DistinctAddresses(sites[i].ledger.accounts) {
        HistoryStaysSound(foreign, sites, events, i);
      }
    }
  }

  /** No transaction of the history may exchange funds when its turn comes. */
  ghost predicate NothingExchanged(foreign: Foreign, sites: seq<Site>, events: seq<Event>)
    requires |sites| == |events| + 1
  {
    forall i | 0 <= i < |events| :: events[i].Transact? ==>
      !MayExchange(WorldAt(sites[i]), events[i].tx, HostAt(foreign, sites[i]))
  }

  function Increments(events: seq<Event>, alias: string): nat {
    if events == [] then 0 else
    Increments(events[..|events| - 1], alias) + if events[|events| - 1] == IncrementNonce(alias) then 1 else 0
  }

  /** The account under `alias` keeps its balance, and its nonce grows by `n`. */
  predicate FundsMove(before: Accounts, after: Accounts, alias: string, n: nat)
    requires alias in before
  {
    && alias in after && after[alias].balance == before[alias].balance
    && after[alias].nonce == before[alias].nonce + n
  }

  /** Funds kept by address are kept by alias. */
  lemma FundsByAlias(before: Ledger, after: Ledger, alias: string)
    requires WellFormed(before) && WellFormed(after) && Extends(before.accounts, after.accounts)
    requires SameFunds(ByAddress(before.accounts), ByAddress(after.accounts)) && alias in before.accounts
    ensures FundsMove(before.accounts, after.accounts, alias, 0)
  {
    assert (alias, before.accounts[alias].address) in Roster(before.accounts);
    AliasUnique(before.accounts, alias);
    AliasUnique(after.accounts, alias);
    assert before.accounts[alias].address in ByAddress(before.accounts);
  }

  lemma TransactFunds(foreign: Foreign, before: Site, after: Site, tx: Transaction, alias: string)
    requires Sound(foreign, before) && EventStep(foreign, before, after, Transact(tx))
    requires !MayExchange(WorldAt(before), tx, HostAt(foreign, before))
    ensures alias in before.ledger.accounts ==>
              FundsMove(before.ledger.accounts, after.ledger.accounts, alias, 0)
    ensures TotalBalance(WorldAt(after)) == TotalBalance(WorldAt(before))
  {
    WrittenStaysSound(foreign, before, after);
    NoExchange(WorldAt(before), tx, HostAt(foreign, before));
    Conservation(WorldAt(before), tx, HostAt(foreign, before));
    if alias in before.ledger.accounts { FundsByAlias(before.ledger, after.ledger, alias); }
  }

  /** By address, an increment changes one nonce. */
  lemma IncrementByAddress(before: Ledger, after: Ledger, s: string) returns (a: Address, nonce: U256)
    requires WellFormed(before) && Apply(before, IncNonce(s)) == Ok(after)
    ensures Renonced(ByAddress(before.accounts), ByAddress(after.accounts), a, nonce)
  {
    nonce := before.accounts[s].nonce + 1;
    var acc := before.accounts[s].(nonce := nonce);
    a := acc.address;
    assert after == before.(accounts := before.accounts[s := acc]);
    var world := ByAddress(before.accounts);
    assert a in world && world[a] == RecordOf(before.accounts[s])
           && ByAddress(after.accounts) == world[a := RecordOf(acc)] by {
      InPlaceUpdate(before, s, acc);
    }
    assert RecordOf(acc) == world[a].(nonce := nonce);
  }

  predicate Renonced(before: World, after: World, a: Address, nonce: U256) {
    a in before && after == before[a := before[a].(nonce := nonce)]
  }

  lemma NonceOnly(before: World, after: World, a: Address, nonce: U256)
    requires Renonced(before, after, a, nonce)
    ensures TotalBalance(after) == TotalBalance(before)
  {
    FundsOfUpdate(before, a, before[a].(nonce := nonce));
  }

  lemma IncrementTotal(before: Ledger, after: Ledger, s: string)
    requires WellFormed(before) && Apply(before, IncNonce(s)) == Ok(after)
    ensures TotalBalance(ByAddress(after.accounts)) == TotalBalance(ByAddress(before.accounts))
  {
    var a, nonce := IncrementByAddress(before, after, s);
    NonceOnly(ByAddress(before.accounts), ByAddress(after.accounts), a, nonce);
  }

  lemma OneIncrement(event: Event, alias: string)
    ensures Increments([event], alias) == if event == IncrementNonce(alias) then 1 else 0
  {
    assert [event][..0] == [];
  }

  lemma IncrementFunds(before: Ledger, after: Ledger, s: string, alias: string)
    requires Apply(before, IncNonce(s)) == Ok(after) && alias in before.accounts
    ensures FundsMove(before.accounts, after.accounts, alias, if s == alias then 1 else 0)
  {
  }

  /** What one event does to the funds of the account under `alias`, and to the total. */
  ghost predicate StepFunds(before: Site, after: Site, event: Event, alias: string) {
    && (alias in before.ledger.accounts ==>
          FundsMove(before.ledger.accounts, after.ledger.accounts, alias, Increments([event], alias)))
    && TotalBalance(WorldAt(after)) == TotalBalance(WorldAt(before))
  }

  lemma EventFunds(foreign: Foreign, before: Site, after: Site, event: Event, alias: string)
    requires Sound(foreign, before) && EventStep(foreign, before, after, event)
    requires event.Transact? ==> !MayExchange(WorldAt(before), event.tx, HostAt(foreign, before))
    ensures StepFunds(before, after, event, alias)
  {
    OneIncrement(event, alias);
    match event
    case Transact(tx) => TransactFunds(foreign, before, after, tx, alias);
    case IncrementNonce(s) =>
      IncrementTotal(before.ledger, after.ledger, s);
      if alias in before.ledger.accounts { IncrementFunds(before.ledger, after.ledger, s, alias); }
    case CommitBlock(_) =>
  }

  lemma IncrementsMore(events: seq<Event>, alias: string)
    requires events != []
    ensures Increments(events, alias)
         == Increments(events[..|events| - 1], alias) + Increments([events[|events| - 1]], alias)
  {
    assert [events[|events| - 1]][..0] == [];
  }

  lemma FundsMoveOn(first: Accounts, second: Accounts, third: Accounts, alias: string, n: nat, k: nat)
    requires alias in first && FundsMove(first, second, alias, n)
    requires alias in second && FundsMove(second, third, alias, k)
    ensures FundsMove(first, third, alias, n + k)
  {
  }

  lemma {:induction false} FundsAdd(sites: seq<Site>, events: seq<Event>, alias: string, i: nat)
    requires |sites| == |events| + 1 && i < |sites| && alias in sites[0].ledger.accounts
    requires forall j | 0 <= j < |events| :: StepFunds(sites[j], sites[j + 1], events[j], alias)
    ensures FundsMove(sites[0].ledger.accounts, sites[i].ledger.accounts, alias, Increments(events[..i], alias))
    ensures TotalBalance(WorldAt(sites[i])) == TotalBalance(WorldAt(sites[0]))
    decreases i
  {
    if i > 0 {
      FundsAdd(sites, events, alias, i - 1);
      var e := events[i - 1];
      assert StepFunds(sites[i - 1], sites[i], e, alias);
      FundsMoveOn(sites[0].ledger.accounts, sites[i - 1].ledger.accounts, sites[i].ledger.accounts, alias,
                  Increments(events[..i - 1], alias), Increments([e], alias));
      assert events[..i][..i - 1] == events[..i - 1];
      IncrementsMore(events[..i], alias);
    }
  }

  /** Unless a transaction may exchange funds, at every point of a history an account's balance is what
      it was, its nonce counts the increments made to it, and the total balance is what it was. */
  lemma HistoryFunds(foreign: Foreign, sites: seq<Site>, events: seq<Event>, alias: string, i: nat)
    requires IsHistory(foreign, sites, events) && i < |sites| && Sound(foreign, sites[0])
    requires NothingExchanged(foreign, sites, events) && alias in sites[0].ledger.accounts
    ensures FundsMove(sites[0].ledger.accounts, sites[i].ledger.accounts, alias, Increments(events[..i], alias))
    ensures TotalBalance(WorldAt(sites[i])) == TotalBalance(WorldAt(sites[0]))
  {
    forall j | 0 <= j < |events| ensures StepFunds(sites[j], sites[j + 1], events[j], alias) {
      HistoryStaysSound(foreign, sites, events, j);
      EventFunds(foreign, sites[j], sites[j + 1], events[j], alias);
    }
    FundsAdd(sites, events, alias, i);
  }
}
