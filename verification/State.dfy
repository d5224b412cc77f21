/** The write-back cache as an object over its provider. */
module StateCache {
  import opened Types
  import opened Chain
  import opened Cache

  class State {
    const provider: Blockchain
    var accounts: Entries

    constructor (provider: Blockchain)
      ensures this.provider == provider && accounts == map[]
    {
      this.provider := provider;
      accounts := map[];
    }

    ghost predicate Valid()
      reads this, provider
    {
      provider.Valid()
    }

    ghost function TheWorld(): World
      reads this, provider
    {
      provider.TheWorld()
    }

    /** Never fails: an unknown address is cached as an empty account. */
    method FetchAccount(a: Address)
      requires Valid()
      modifies this
      ensures accounts == WithAccount(old(accounts), TheWorld(), a)
      ensures a in old(accounts) ==> accounts == old(accounts)
      ensures a !in old(accounts) ==> accounts == old(accounts)[a :=
        if a !in TheWorld() then Entry(0, 1, [], map[], false)
        else var r := TheWorld()[a]; Entry(r.balance, r.nonce, r.code, map[], false)]
    {
      if a in accounts {
        return;
      }
      var r := provider.GetAccount(a);
      match r {
        case Ok(acc) => accounts := accounts[a := Entry(acc.balance, acc.nonce, acc.code, map[], false)];
        case Err(_) => accounts := accounts[a := Entry(0, 1, [], map[], false)];
      }
    }

    method FetchStorage(a: Address, k: H256)
      requires Valid()
      modifies this
      ensures accounts == WithSlot(old(accounts), TheWorld(), a, k)
    {
      FetchAccount(a);
      if k in accounts[a].storage {
        return;
      }
      var r := provider.StorageAt(a, k);
      match r {
        case Ok(v) => accounts := accounts[a := accounts[a].(storage := accounts[a].storage[k := Slot(v, false)])];
        case Err(_) =>
      }
    }

    method StorageAt(a: Address, k: H256) returns (v: H256)
      requires Valid()
      modifies this
      ensures accounts == WithSlot(old(accounts), TheWorld(), a, k)
      ensures v == View(old(accounts), TheWorld(), a, k)
    {
      LookupReadsView(accounts, TheWorld(), a, k);
      FetchStorage(a, k);
      if k in accounts[a].storage {
        v := accounts[a].storage[k].value;
      } else {
        v := ZERO_HASH;
      }
    }

    method Balance(a: Address) returns (balance: U256)
      requires Valid()
      modifies this
      ensures accounts == WithAccount(old(accounts), TheWorld(), a)
      ensures balance == accounts[a].balance
      ensures a !in old(accounts) ==> balance == if a in TheWorld() then TheWorld()[a].nonce else 1
    {
      FetchAccount(a);
      balance := accounts[a].balance;
    }

    method PutSlot(a: Address, k: H256, v: H256)
      requires Valid()
      modifies this
      ensures accounts == WithWrite(old(accounts), TheWorld(), a, k, v)
    {
      FetchAccount(a);
      accounts := accounts[a := accounts[a].(storage := accounts[a].storage[k := Slot(v, true)])];
    }

    method InitCode(a: Address, code: Bytes)
      requires Valid()
      modifies this
      ensures accounts == WithCode(old(accounts), TheWorld(), a, code)
    {
      FetchAccount(a);
      accounts := accounts[a := accounts[a].(code := code, dirty := true)];
    }

    method BlockHash(num: u64) returns (r: Result<H256>)
      requires Valid()
      ensures r == if num < |provider.TheBlocks().hashes| then Ok(provider.TheBlocks().hashes[num]) else Err(HostPanic)
    {
      r := provider.BlockHash(num);
    }

    method BlockNumber() returns (num: nat)
      requires Valid()
      ensures num == |provider.TheBlocks().hashes| - 1
    {
      num := provider.BlockNumber();
    }

    /** Forwards the block number. */
    method Timestamp() returns (num: nat)
      requires Valid()
      ensures num == |provider.TheBlocks().hashes| - 1
    {
      num := provider.BlockNumber();
    }

    method BlockAuthor() returns (author: Address)
      requires Valid()
      ensures author == provider.TheBlocks().author
    {
      author := provider.BlockAuthor();
    }

    /** The account part of one visit: create what is missing, else overwrite balance and nonce. */
    method FlushOne(a: Address) returns (r: Result<()>)
      requires Valid() && a in accounts
      modifies provider`accounts, provider`counter
      ensures Valid() && Written(old(provider.TheLedger()), provider.TheLedger())
      ensures r.Ok? ==> FlushAccount(old(TheWorld()), a, accounts[a]) == Ok(TheWorld())
      ensures r.Ok? ==>
        provider.counter == old(provider.counter) + (if accounts[a].dirty && a !in old(TheWorld()) then 1 else 0)
      ensures r.Err? ==> r == Err(HostPanic) && provider.TheLedger() == old(provider.TheLedger())
      ensures r.Err? ==> accounts[a].dirty && a !in old(TheWorld()) && provider.counter == MAX_COUNTER
    {
      ghost var before, entry := provider.TheLedger(), accounts[a];
      WrittenNothing(before);
      r := Ok(());
      if accounts[a].dirty {
        var exist := provider.Exist(a);
        if !exist {
          r := provider.AddContract(a, accounts[a].code);
          if r.Ok? { WrittenBy(before, before, CreateContract(a, entry.code), provider.TheLedger()); }
        } else {
          r := provider.PutAccount(a, accounts[a].balance, accounts[a].nonce);
          if r.Ok? { WrittenBy(before, before, UpdateAccount(a, entry.balance, entry.nonce), provider.TheLedger()); }
        }
      }
    }

    /** One round of the inner loop. */
    method FlushSlot(a: Address, k: H256) returns (r: Result<()>)
      requires Valid() && a in accounts && k in accounts[a].storage
      modifies provider`accounts
      ensures Valid() && Written(old(provider.TheLedger()), provider.TheLedger())
      ensures var slot := accounts[a].storage[k];
        r.Ok? ==> (if slot.dirty then ApplyToWorld(old(TheWorld()), SetStorage(a, k, slot.value))
                   else Ok(old(TheWorld()))) == Ok(TheWorld())
      ensures r.Err? ==> r == Err(HostPanic) && provider.TheLedger() == old(provider.TheLedger())
      ensures r.Err? ==> a !in TheWorld() && k in DirtySlots(accounts[a])
    {
      ghost var before, call := provider.TheLedger(), SetStorage(a, k, accounts[a].storage[k].value);
      WrittenNothing(before);
      r := Ok(());
      if accounts[a].storage[k].dirty {
        r := provider.PutStorage(a, k, accounts[a].storage[k].value);
        if r.Ok? { WrittenBy(before, before, call, provider.TheLedger()); }
      }
    }

    /** The inner loop: writes the dirty slots of `a` in whatever order the map yields them. `keys` are
        the ones it got through. */
    method FlushStorage(a: Address) returns (r: Result<()>, ghost keys: seq<H256>)
      requires Valid() && a in accounts
      modifies provider`accounts
      ensures Valid() && Written(old(provider.TheLedger()), provider.TheLedger())
      ensures FlushSlots(old(TheWorld()), a, accounts[a], keys) == Ok(TheWorld())
      ensures r.Ok? ==> KeySet(keys) == accounts[a].storage.Keys
      ensures r.Err? ==> r == Err(HostPanic) && KeySet(keys) <= accounts[a].storage.Keys
      ensures r.Err? ==> a !in TheWorld() && DirtySlots(accounts[a]) != map[]
    {
      keys := [];
      ghost var before, start := TheWorld(), provider.TheLedger();
      WrittenNothing(start);
      var remaining := accounts[a].storage.Keys;
      KeysStart(before, a, accounts[a]);
      while remaining != {}
        invariant Valid() && Written(start, provider.TheLedger())
        invariant KeyProgress(before, TheWorld(), a, accounts[a], keys, remaining)
        decreases remaining
      {
        var k :| k in remaining;
        ghost var world, ledger := TheWorld(), provider.TheLedger();
        r := FlushSlot(a, k);
        WrittenOn(start, ledger, provider.TheLedger());
        if r.Err? {
          return;
        }
        KeyDone(before, world, TheWorld(), a, accounts[a], keys, remaining, k);
        remaining := remaining - {k};
        keys := keys + [k];
      }
      r := Ok(());
    }

    /** One round of the outer loop. */
    method FlushEntry(a: Address) returns (r: Result<()>, ghost keys: seq<H256>)
      requires Valid() && a in accounts
      modifies provider`accounts, provider`counter
      ensures Valid() && Written(old(provider.TheLedger()), provider.TheLedger())
      ensures r.Ok? ==> KeySet(keys) == accounts[a].storage.Keys
      ensures r.Ok? ==> FlushVisit(old(TheWorld()), accounts, Visit(a, keys)) == Ok(TheWorld())
      ensures r.Ok? ==>
        provider.counter == old(provider.counter) + (if accounts[a].dirty && a !in old(TheWorld()) then 1 else 0)
      ensures r.Err? ==> r == Err(HostPanic)
      ensures r.Err? ==> FailedVisit(old(TheWorld()), TheWorld(), accounts, Visit(a, keys), old(provider.counter))
      ensures r.Err? && Flushable(old(TheWorld()), accounts, a) ==> provider.TheLedger() == old(provider.TheLedger())
    {
      keys := [];
      ghost var start := provider.TheLedger();
      r := FlushOne(a);
      if r.Err? {
        return;
      }
      ghost var world, ledger := TheWorld(), provider.TheLedger();
      r, keys := FlushStorage(a);
      WrittenOn(start, ledger, provider.TheLedger());
      SlotsClosed(world, a, accounts[a], keys);
    }

    /** Flushes every dirty account and slot, visiting both maps in any order. It fails when a slot
        has no account or the contract counter is used up, and then leaves what it had done; of a
        single account whose slots are in order that is nothing. */
    method UpdateState() returns (r: Result<()>)
      requires Valid()
      modifies provider`accounts, provider`counter
      ensures Valid() && Written(old(provider.TheLedger()), provider.TheLedger())
      ensures r == if AllFlushable(old(TheWorld()), accounts)
                      && Numberable(old(TheWorld()), accounts, old(provider.counter))
                   then Ok(()) else Err(HostPanic)
      ensures r.Ok? ==> TheWorld() == Flushed(old(TheWorld()), accounts)
      ensures r.Ok? ==>
                provider.counter == old(provider.counter) + |Creations(old(TheWorld()), accounts, accounts.Keys)|
      ensures r.Err? ==> Interrupted(old(TheWorld()), accounts, TheWorld())
      ensures r.Err? && AllFlushable(old(TheWorld()), accounts)
              && (forall a | a in accounts :: accounts.Keys == {a}) ==>
                provider.TheLedger() == old(provider.TheLedger())
    {
      ghost var before, start := TheWorld(), provider.counter;
      ghost var visits: seq<Visit> := [];
      var remaining := accounts.Keys;
      ghost var first := provider.TheLedger();
      WrittenNothing(first);
      ProgressStarts(before, accounts, start);
      while remaining != {}
        invariant Valid() && remaining <= accounts.Keys
        invariant Written(first, provider.TheLedger())
        invariant Progress(before, TheWorld(), accounts, visits, remaining, start, provider.counter)
        invariant remaining == accounts.Keys ==> provider.TheLedger() == old(provider.TheLedger())
        decreases remaining
      {
        var a :| a in remaining;
        ghost var world, counter := TheWorld(), provider.counter;
        ghost var ledger, keys := provider.TheLedger(), [];
        r, keys := FlushEntry(a);
        WrittenOn(first, ledger, provider.TheLedger());
        if r.Err? {
          ProgressStops(before, world, TheWorld(), accounts, visits, remaining, start, counter, Visit(a, keys));
          return;
        }
        ProgressGoesOn(before, world, TheWorld(), accounts, visits, remaining, start, counter, Visit(a, keys));
        remaining := remaining - {a};
        visits := visits + [Visit(a, keys)];
      }
      ProgressEnds(before, TheWorld(), accounts, visits, start, provider.counter);
      r := Ok(());
    }
  }

  /** How far a flush has come: the visits made, the addresses remaining, the numbers given out. */
  ghost predicate Progress(before: World, now: World, cache: Entries, visits: seq<Visit>,
                           remaining: set<Address>, start: nat, counter: nat) {
    && remaining <= cache.Keys && counter <= MAX_COUNTER
    && Partial(cache, visits) && Visited(visits) == cache.Keys - remaining
    && FlushInOrder(before, cache, visits) == Ok(now)
    && counter == start + |Creations(before, cache, Visited(visits))|
  }

  lemma ProgressStarts(world: World, cache: Entries, counter: nat)
    requires counter <= MAX_COUNTER
    ensures Progress(world, world, cache, [], cache.Keys, counter, counter)
  {
    assert Creations(world, cache, Visited([])) == {};
  }

  lemma ProgressGoesOn(before: World, world: World, now: World, cache: Entries, visits: seq<Visit>,
                       remaining: set<Address>, start: nat, counter: nat, visit: Visit)
    requires Progress(before, world, cache, visits, remaining, start, counter) && visit.address in remaining
    requires KeySet(visit.keys) == cache[visit.address].storage.Keys
    requires FlushVisit(world, cache, visit) == Ok(now)
    ensures var created := if cache[visit.address].dirty && visit.address !in world then 1 else 0;
      counter + created <= MAX_COUNTER ==>
        Progress(before, now, cache, visits + [visit], remaining - {visit.address}, start, counter + created)
  {
    WorldSoFar(before, world, cache, visits, visit.address);
    VisitDone(before, world, cache, visits, visit);
  }

  lemma ProgressStops(before: World, world: World, now: World, cache: Entries, visits: seq<Visit>,
                      remaining: set<Address>, start: nat, counter: nat, visit: Visit)
    requires Progress(before, world, cache, visits, remaining, start, counter) && visit.address in remaining
    requires FailedVisit(world, now, cache, visit, counter)
    ensures !AllFlushable(before, cache) || !Numberable(before, cache, start)
    ensures Interrupted(before, cache, now)
  {
    WorldSoFar(before, world, cache, visits, visit.address);
    StoppedFlush(before, world, now, cache, visits, visit, start);
  }

  lemma ProgressEnds(before: World, now: World, cache: Entries, visits: seq<Visit>, start: nat, counter: nat)
    requires Progress(before, now, cache, visits, {}, start, counter)
    ensures AllFlushable(before, cache) && Numberable(before, cache, start) && now == Flushed(before, cache)
    ensures counter == start + |Creations(before, cache, cache.Keys)|
  {
    FlushOrderIndependent(before, cache, visits);
  }

  /** Why a visit fails: no number is left for the account it has to create, or a dirty slot is left
      without an account. */
  ghost predicate FailedVisit(world: World, now: World, cache: Entries, visit: Visit, counter: nat)
    requires visit.address in cache
  {
    var a := visit.address;
    || (cache[a].dirty && a !in world && counter == MAX_COUNTER && now == world)
    || (a !in now && DirtySlots(cache[a]) != map[] && KeySet(visit.keys) <= cache[a].storage.Keys
        && FlushVisit(world, cache, visit) == Ok(now))
  }

  /** The contract counter suffices for every account the flush creates. */
  predicate Numberable(world: World, cache: Entries, counter: nat) {
    counter + |Creations(world, cache, cache.Keys)| <= MAX_COUNTER
  }

  /** What the visits so far say about the next address. */
  lemma WorldSoFar(before: World, world: World, cache: Entries, visits: seq<Visit>, a: Address)
    requires Partial(cache, visits) && FlushInOrder(before, cache, visits) == Ok(world)
    requires a in cache && a !in Visited(visits)
    ensures a in world <==> a in before
  {
    OrderClosed(before, cache, visits);
    FlushedOnMore(before, cache, Visited(visits), a);
  }

  lemma StoppedAtAccount(before: World, world: World, cache: Entries, visits: seq<Visit>, a: Address, counter: nat)
    requires Partial(cache, visits) && FlushInOrder(before, cache, visits) == Ok(world)
    requires a in cache && a !in Visited(visits) && Visited(visits) <= cache.Keys
    requires cache[a].dirty && a !in before
    requires counter + |Creations(before, cache, Visited(visits))| == MAX_COUNTER
    ensures !Numberable(before, cache, counter) && Interrupted(before, cache, world)
  {
    CreationsMore(before, cache, Visited(visits), a);
    CreationsGrow(before, cache, Visited(visits) + {a}, cache.Keys);
    if visits != [] { PartialPrefix(cache, visits); }
    assert Started(cache, visits);
  }

  lemma VisitAppended(before: World, world: World, cache: Entries, visits: seq<Visit>, visit: Visit)
    requires FlushInOrder(before, cache, visits) == Ok(world)
    ensures FlushInOrder(before, cache, visits + [visit]) == FlushVisit(world, cache, visit)
    ensures (visits + [visit])[..|visits|] == visits
  {
  }

  /** A flush stops at a dirty slot whose account neither was there nor has been created. */
  lemma StoppedAtSlot(before: World, world: World, now: World, cache: Entries, visits: seq<Visit>, visit: Visit)
    requires Partial(cache, visits) && FlushInOrder(before, cache, visits) == Ok(world)
    requires var a := visit.address;
      a in cache && a !in Visited(visits) && (a in world <==> a in before) && DirtySlots(cache[a]) != map[] && a !in now
    requires FlushVisit(world, cache, visit) == Ok(now) && KeySet(visit.keys) <= cache[visit.address].storage.Keys
    ensures !AllFlushable(before, cache) && Interrupted(before, cache, now)
  {
    var a := visit.address;
    SlotsClosed(FlushAccount(world, a, cache[a]).value, a, cache[a], visit.keys);
    assert !Flushable(before, cache, a);
    VisitAppended(before, world, cache, visits, visit);
    assert Started(cache, visits + [visit]);
  }

  lemma StoppedFlush(before: World, world: World, now: World, cache: Entries, visits: seq<Visit>, visit: Visit,
                     counter: nat)
    requires Partial(cache, visits) && FlushInOrder(before, cache, visits) == Ok(world)
    requires var a := visit.address; a in cache && a !in Visited(visits) && (a in world <==> a in before)
    requires Visited(visits) <= cache.Keys
    requires FailedVisit(world, now, cache, visit, counter + |Creations(before, cache, Visited(visits))|)
    ensures !AllFlushable(before, cache) || !Numberable(before, cache, counter)
    ensures Interrupted(before, cache, now)
  {
    if now == world && cache[visit.address].dirty {
      if visit.address !in world && counter + |Creations(before, cache, Visited(visits))| == MAX_COUNTER {
        StoppedAtAccount(before, world, cache, visits, visit.address, counter);
      } else {
        StoppedAtSlot(before, world, now, cache, visits, visit);
      }
    } else {
      StoppedAtSlot(before, world, now, cache, visits, visit);
    }
  }

  /** One complete visit more. */
  lemma VisitDone(before: World, world: World, cache: Entries, visits: seq<Visit>, visit: Visit)
    requires Partial(cache, visits) && FlushInOrder(before, cache, visits) == Ok(world)
    requires visit.address in cache && visit.address !in Visited(visits)
    requires KeySet(visit.keys) == cache[visit.address].storage.Keys
    ensures Partial(cache, visits + [visit]) && Visited(visits + [visit]) == Visited(visits) + {visit.address}
    ensures FlushInOrder(before, cache, visits + [visit]) == FlushVisit(world, cache, visit)
    ensures |Creations(before, cache, Visited(visits + [visit]))| == |Creations(before, cache, Visited(visits))|
              + if cache[visit.address].dirty && visit.address !in before then 1 else 0
  {
    ExtendVisits(cache, visits, visit);
    VisitAppended(before, world, cache, visits, visit);
    CreationsMore(before, cache, Visited(visits), visit.address);
  }

  /** How far the inner loop has come: the slots written, the slots remaining. */
  ghost predicate KeyProgress(before: World, now: World, a: Address, entry: Entry, keys: seq<H256>,
                              remaining: set<H256>) {
    && remaining <= entry.storage.Keys
    && KeySet(keys) == entry.storage.Keys - remaining
    && FlushSlots(before, a, entry, keys) == Ok(now)
  }

  lemma KeysStart(world: World, a: Address, entry: Entry)
    ensures KeyProgress(world, world, a, entry, [], entry.storage.Keys)
  {
  }

  lemma KeyDone(before: World, world: World, now: World, a: Address, entry: Entry, keys: seq<H256>,
                remaining: set<H256>, k: H256)
    requires KeyProgress(before, world, a, entry, keys, remaining) && k in remaining
    requires Ok(now) ==
      if entry.storage[k].dirty then ApplyToWorld(world, SetStorage(a, k, entry.storage[k].value)) else Ok(world)
    ensures KeyProgress(before, now, a, entry, keys + [k], remaining - {k})
  {
    assert (keys + [k])[..|keys|] == keys;
    assert KeySet(keys + [k]) == KeySet(keys) + {k};
  }

  lemma ExtendVisits(cache: Entries, visits: seq<Visit>, visit: Visit)
    requires Partial(cache, visits) && visit.address in cache && visit.address !in Visited(visits)
    requires KeySet(visit.keys) == cache[visit.address].storage.Keys
    ensures Partial(cache, visits + [visit])
    ensures Visited(visits + [visit]) == Visited(visits) + {visit.address}
  {
    var more := visits + [visit];
    assert more[..|visits|] == visits && more[|visits|] == visit;
    forall b | b in Visited(visits) + {visit.address} ensures b in Visited(more) {
      if b in Visited(visits) {
        var i :| 0 <= i < |visits| && visits[i].address == b;
        assert more[i].address == b;
      }
    }
  }
}
