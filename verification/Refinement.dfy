/** Step by step, the cache does what a snapshot of the contract's storage does, and every dirty
    slot has been paid for. */
module Refinement {
  import opened Types
  import opened Numbers
  import opened Cache
  import opened Metering
  import opened HostMachine

  /** What the cache holds as the balance of an account it has just loaded. */
  function StoredBalance(world: World, a: Address): U256 {
    Loaded(world, a).balance
  }

  /** A `ccall` whose value lies between the balance the cache holds and the true one. */
  predicate Discriminates(env: Env, memory: Bytes, call: HostCall) {
    && call.Ccall? && call.addressPtr + 20 <= |memory| && call.valPtr + 32 <= |memory|
    && var value := FromBigEndian(memory[call.valPtr..call.valPtr + 32]);
       (StoredBalance(env.world, env.params.address) < value)
         != (TrueBalance(env.world, env.params.address) < value)
  }

  /** The slots a flush would publish for the running contract. */
  function Pending(env: Env, entries: Entries): Slots {
    if env.params.address in entries then DirtySlots(entries[env.params.address]) else map[]
  }

  /** During a run the cache holds at most the running contract, never marked for creation. */
  ghost predicate RunCache(env: Env, entries: Entries) {
    && Coherent(entries, env.world)
    && entries.Keys <= {env.params.address}
    && forall a | a in entries :: !entries[a].dirty
  }

  /** The snapshot is the provider's storage overridden by the dirty slots. */
  ghost predicate Refines(env: Env, cached: Storage, direct: Storage) {
    && cached.Cached? && direct.Direct?
    && RunCache(env, cached.entries)
    && direct.slots == StorageOf(env.world, env.params.address) + Pending(env, cached.entries)
  }

  lemma LookupRefines(env: Env, cached: Storage, direct: Storage, k: H256)
    requires Refines(env, cached, direct)
    ensures Refines(env, Looked(env, cached, k), Looked(env, direct, k))
    ensures SlotValue(env, Looked(env, cached, k), k) == SlotValue(env, direct, k)
  {
    var a, entries := env.params.address, cached.entries;
    StepIsCoherent(entries, env.world, ReadOp(a, k));
    LookupReadsView(entries, env.world, a, k);
    var after := WithSlot(entries, env.world, a, k);
    assert Pending(env, after) == Pending(env, entries);
    assert k in Pending(env, entries) <==> IsDirty(entries, a, k);
    assert CleanSlot(entries, env.world, a, k);
  }

  lemma BalanceLookupRefines(env: Env, cached: Storage, direct: Storage)
    requires Refines(env, cached, direct)
    ensures Refines(env, BalanceLooked(env, cached), BalanceLooked(env, direct))
    ensures OwnBalance(env, cached) == StoredBalance(env.world, env.params.address)
  {
    var a, entries := env.params.address, cached.entries;
    assert CleanAccount(entries, env.world, a);
    var after := WithAccount(entries, env.world, a);
    assert Pending(env, after) == Pending(env, entries);
    assert Coherent(after, env.world) by {
      forall b ensures CleanAccount(after, env.world, b) { assert CleanAccount(entries, env.world, b); }
      forall b, k ensures CleanSlot(after, env.world, b, k) { assert CleanSlot(entries, env.world, b, k); }
    }
  }

  lemma WriteRefines(env: Env, cached: Storage, direct: Storage, k: H256, v: H256)
    requires Refines(env, cached, direct)
    ensures Refines(env, PutValue(env, cached, k, v), PutValue(env, direct, k, v))
  {
    var a, entries := env.params.address, cached.entries;
    StepIsCoherent(entries, env.world, WriteOp(a, k, v));
    var after := WithWrite(entries, env.world, a, k, v);
    assert Pending(env, after) == Pending(env, entries)[k := v];
    var base := StorageOf(env.world, a);
    assert base + Pending(env, entries)[k := v] == (base + Pending(env, entries))[k := v];
  }

  /** The two machines agree on everything but where storage lives. */
  ghost predicate Same(env: Env, m: Machine, n: Machine) {
    m.core == n.core && Refines(env, m.storage, n.storage)
  }

  lemma ReadStepRefines(env: Env, m: Machine, n: Machine, keyPtr: u32, valPtr: u32)
    requires Same(env, m, n)
    ensures var r, q := StorageReadStep(env, m, keyPtr, valPtr), StorageReadStep(env, n, keyPtr, valPtr);
      r.outcome == q.outcome && Same(env, r.machine, q.machine)
  {
    if InMemory(m.core.memory, keyPtr, 32) {
      LookupRefines(env, m.storage, n.storage, Slice(m.core.memory, keyPtr, 32));
    }
  }

  lemma WriteStepRefines(env: Env, m: Machine, n: Machine, keyPtr: u32, valPtr: u32)
    requires Same(env, m, n)
    ensures var r, q := StorageWriteStep(env, m, keyPtr, valPtr), StorageWriteStep(env, n, keyPtr, valPtr);
      r.outcome == q.outcome && Same(env, r.machine, q.machine)
  {
    if InMemory(m.core.memory, keyPtr, 32) && InMemory(m.core.memory, valPtr, 32) {
      var key, v := Slice(m.core.memory, keyPtr, 32), Slice(m.core.memory, valPtr, 32);
      LookupRefines(env, m.storage, n.storage, key);
      WriteRefines(env, Looked(env, m.storage, key), n.storage, key, v);
    }
  }

  predicate TouchesStorage(call: HostCall) {
    call.StorageRead? || call.StorageWrite? || call.Ccall?
  }

  lemma StorageKept(env: Env, m: Machine, call: HostCall)
    requires !TouchesStorage(call)
    ensures Step(env, m, call).machine.storage == m.storage
  {
  }

  lemma LogsAlike(env: Env, m: Machine, n: Machine, topicPtr: u32, topicCount: u32, dataPtr: u32, dataLen: u32)
    requires m.core == n.core
    ensures var r, q := ElogStep(env, m, topicPtr, topicCount, dataPtr, dataLen),
                        ElogStep(env, n, topicPtr, topicCount, dataPtr, dataLen);
      r.machine.core == q.machine.core && r.outcome == q.outcome
  {
  }

  /** No other call looks at storage: it does the same to both cores and leaves storage alone. */
  lemma StorageUntouched(env: Env, m: Machine, n: Machine, call: HostCall)
    requires !TouchesStorage(call) && m.core == n.core
    ensures Step(env, m, call).machine.storage == m.storage
    ensures Step(env, m, call).machine.core == Step(env, n, call).machine.core
    ensures Step(env, m, call).outcome == Step(env, n, call).outcome
  {
    StorageKept(env, m, call);
    match call
    case Elog(topicPtr, topicCount, dataPtr, dataLen) =>
      LogsAlike(env, m, n, topicPtr, topicCount, dataPtr, dataLen);
    case _ =>
  }

  lemma CcallStepRefines(env: Env, m: Machine, n: Machine, call: HostCall)
    requires Same(env, m, n) && call.Ccall? && !Discriminates(env, m.core.memory, call)
    ensures Step(env, m, call).outcome == Step(env, n, call).outcome
    ensures Same(env, Step(env, m, call).machine, Step(env, n, call).machine)
  {
    BalanceLookupRefines(env, m.storage, n.storage);
  }

  /** Going on with a call costs gas, where refusing it costs none. */
  lemma GoingOnDiffers(env: Env, m: Machine, gas: u64, inputPtr: u32, inputLen: u32)
    ensures var r := CallOnwards(env, m, gas, inputPtr, inputLen);
      r.outcome.Err? || r.machine.core.gasCounter > m.core.gasCounter
  {
  }

  lemma CcallStepDiffers(env: Env, m: Machine, n: Machine, call: HostCall)
    requires Same(env, m, n) && Discriminates(env, m.core.memory, call)
    ensures Step(env, m, call).outcome != Step(env, n, call).outcome
         || Step(env, m, call).machine.core != Step(env, n, call).machine.core
  {
    BalanceLookupRefines(env, m.storage, n.storage);
    GoingOnDiffers(env, m.(storage := BalanceLooked(env, m.storage)), call.gas, call.inputPtr, call.inputLen);
    GoingOnDiffers(env, n, call.gas, call.inputPtr, call.inputLen);
  }

  /** One outcome, one core, and storages that still match. */
  ghost predicate StepsAlike(env: Env, m: Machine, n: Machine, call: HostCall) {
    && Step(env, m, call).outcome == Step(env, n, call).outcome
    && Same(env, Step(env, m, call).machine, Step(env, n, call).machine)
  }

  /** The two storages can be told apart by a `ccall` that tells the balances apart, and by nothing else. */
  lemma StepRefines(env: Env, m: Machine, n: Machine, call: HostCall)
    requires Same(env, m, n)
    ensures StepsAlike(env, m, n, call) <==> !Discriminates(env, m.core.memory, call)
  {
    match call
    case StorageRead(keyPtr, valPtr) => ReadStepRefines(env, m, n, keyPtr, valPtr);
    case StorageWrite(keyPtr, valPtr) => WriteStepRefines(env, m, n, keyPtr, valPtr);
    case Ccall(_, _, _, _, _, _, _) =>
      if Discriminates(env, m.core.memory, call) {
        CcallStepDiffers(env, m, n, call);
      } else {
        CcallStepRefines(env, m, n, call);
      }
    case _ =>
      StorageUntouched(env, m, n, call);
      StorageKept(env, n, call);
  }

  /** No call puts anything but the running contract into the cache, or marks it for creation. */
  lemma StepKeepsRunCache(env: Env, m: Machine, call: HostCall)
    requires m.storage.Cached? && RunCache(env, m.storage.entries)
    ensures var after := Step(env, m, call).machine; after.storage.Cached? && RunCache(env, after.storage.entries)
  {
    var slots := StorageOf(env.world, env.params.address) + Pending(env, m.storage.entries);
    var n := m.(storage := Direct(slots));
    match call
    case StorageRead(keyPtr, valPtr) => ReadStepRefines(env, m, n, keyPtr, valPtr);
    case StorageWrite(keyPtr, valPtr) => WriteStepRefines(env, m, n, keyPtr, valPtr);
    case Ccall(_, _, _, _, _, _, _) => BalanceLookupRefines(env, m.storage, n.storage);
    case _ => StorageKept(env, m, call);
  }

  // ----- what dirty slots cost -----

  function DirtyKeys(env: Env, entries: Entries): set<H256> {
    Pending(env, entries).Keys
  }

  /** Of some pending writes, those that turn a slot the provider has at zero non-zero. */
  function Raising(base: Slots, pending: Slots): set<H256> {
    set k | k in pending && pending[k] != ZERO_HASH && ReadSlot(base, k) == ZERO_HASH
  }

  /** Slots that read non-zero now but are zero in the provider. */
  function RaisedKeys(env: Env, entries: Entries): set<H256> {
    Raising(StorageOf(env.world, env.params.address), Pending(env, entries))
  }

  const SET_PRICE := ToWasmGas(SSTORE_SET_GAS)
  const RESET_PRICE := ToWasmGas(SSTORE_RESET_GAS)

  function StoragePrice(dirty: set<H256>, raised: set<H256>): nat {
    SET_PRICE * |raised| + RESET_PRICE * |dirty - raised|
  }

  predicate StoragePaid(env: Env, storage: Storage, gasCounter: nat) {
    storage.Cached? ==>
      StoragePrice(DirtyKeys(env, storage.entries), RaisedKeys(env, storage.entries)) <= gasCounter
  }

  lemma Sizes(s: set<H256>, k: H256)
    ensures |s - {k}| <= |s| <= |s + {k}| <= |s| + 1
  {
    if k in s {
      assert s + {k} == s;
    } else {
      assert s - {k} == s;
    }
  }

  lemma Scaled(c: nat, x: nat, y: nat)
    requires x <= y
    ensures c * x <= c * y && c * (x + 1) == c * x + c
  {
  }

  lemma PriceAtMost(dirty: set<H256>, raised: set<H256>, more: nat, others: nat)
    requires |raised| <= more && |dirty - raised| <= others
    ensures StoragePrice(dirty, raised) <= SET_PRICE * more + RESET_PRICE * others
  {
    Scaled(SET_PRICE, |raised|, more);
    Scaled(RESET_PRICE, |dirty - raised|, others);
  }

  lemma PriceOfRaise(dirty: set<H256>, raised: set<H256>, k: H256)
    requires raised <= dirty && k !in raised
    ensures StoragePrice(dirty + {k}, raised + {k}) <= StoragePrice(dirty, raised) + SET_PRICE
  {
    assert |raised + {k}| <= |raised| + 1 by { Sizes(raised, k); }
    assert |(dirty + {k}) - (raised + {k})| <= |dirty - raised| by {
      assert (dirty + {k}) - (raised + {k}) == (dirty - raised) - {k};
      Sizes(dirty - raised, k);
    }
    PriceAtMost(dirty + {k}, raised + {k}, |raised| + 1, |dirty - raised|);
    Scaled(SET_PRICE, |raised|, |raised|);
  }

  lemma PriceOfReset(dirty: set<H256>, raised: set<H256>, k: H256)
    requires raised <= dirty
    ensures StoragePrice(dirty + {k}, raised - {k}) <= StoragePrice(dirty, raised) + RESET_PRICE
  {
    assert |raised - {k}| <= |raised| by { Sizes(raised, k); }
    assert |(dirty + {k}) - (raised - {k})| <= |dirty - raised| + 1 by {
      assert (dirty + {k}) - (raised - {k}) == (dirty - raised) + {k};
      Sizes(dirty - raised, k);
    }
    PriceAtMost(dirty + {k}, raised - {k}, |raised|, |dirty - raised| + 1);
    Scaled(RESET_PRICE, |dirty - raised|, |dirty - raised|);
  }

  lemma RaisingMore(base: Slots, pending: Slots, k: H256, v: H256)
    ensures pending[k := v].Keys == pending.Keys + {k}
    ensures Raising(base, pending[k := v]) ==
      if v != ZERO_HASH && ReadSlot(base, k) == ZERO_HASH then Raising(base, pending) + {k}
      else Raising(base, pending) - {k}
  {
  }

  /** Writing one slot raises the price of what is dirty by no more than the write is charged. */
  lemma PriceOfWrite(base: Slots, pending: Slots, k: H256, v: H256)
    ensures var former := if k in pending then pending[k] else ReadSlot(base, k);
      StoragePrice(pending[k := v].Keys, Raising(base, pending[k := v]))
        <= StoragePrice(pending.Keys, Raising(base, pending)) + Price(WriteCharge(former, v))
  {
    var dirty, raised := pending.Keys, Raising(base, pending);
    RaisingMore(base, pending, k, v);
    if k in raised {
      assert raised + {k} == raised && dirty + {k} == dirty;
    }
    if v != ZERO_HASH && ReadSlot(base, k) == ZERO_HASH && k !in raised {
      PriceOfRaise(dirty, raised, k);
    } else {
      PriceOfReset(dirty, raised, k);
    }
  }

  lemma LookupKeepsPending(env: Env, entries: Entries, k: H256)
    requires RunCache(env, entries)
    ensures Pending(env, WithSlot(entries, env.world, env.params.address, k)) == Pending(env, entries)
    ensures Pending(env, WithAccount(entries, env.world, env.params.address)) == Pending(env, entries)
    ensures CachedValue(WithSlot(entries, env.world, env.params.address, k), env.params.address, k)
         == if k in Pending(env, entries) then Pending(env, entries)[k]
            else ReadSlot(StorageOf(env.world, env.params.address), k)
  {
    LookupReadsView(entries, env.world, env.params.address, k);
    assert CleanSlot(entries, env.world, env.params.address, k);
  }

  lemma WriteAddsPending(env: Env, entries: Entries, k: H256, v: H256)
    requires RunCache(env, entries)
    ensures var looked := WithSlot(entries, env.world, env.params.address, k);
      Pending(env, WithWrite(looked, env.world, env.params.address, k, v)) == Pending(env, entries)[k := v]
  {
    LookupKeepsPending(env, entries, k);
  }

  lemma WriteStoragePaid(env: Env, m: Machine, keyPtr: u32, valPtr: u32)
    requires m.storage.Cached? && RunCache(env, m.storage.entries)
    requires StoragePaid(env, m.storage, m.core.gasCounter)
    ensures var after := StorageWriteStep(env, m, keyPtr, valPtr).machine;
      StoragePaid(env, after.storage, after.core.gasCounter)
  {
    if InMemory(m.core.memory, keyPtr, 32) && InMemory(m.core.memory, valPtr, 32) {
      var key: H256, v: H256 := Slice(m.core.memory, keyPtr, 32), Slice(m.core.memory, valPtr, 32);
      LookupKeepsPending(env, m.storage.entries, key);
      WriteAddsPending(env, m.storage.entries, key, v);
      PriceOfWrite(StorageOf(env.world, env.params.address), Pending(env, m.storage.entries), key, v);
    }
  }

  lemma PriceKept(env: Env, before: Storage, after: Storage, gas: nat, gas': nat)
    requires before.Cached? && after.Cached? && Pending(env, before.entries) == Pending(env, after.entries)
    requires StoragePaid(env, before, gas) && gas <= gas'
    ensures StoragePaid(env, after, gas')
  {
  }

  /** Any call but a write leaves the pending writes as they are. */
  lemma PendingKept(env: Env, m: Machine, call: HostCall)
    requires m.storage.Cached? && RunCache(env, m.storage.entries) && !call.StorageWrite?
    ensures var after := Step(env, m, call).machine.storage;
      after.Cached? && Pending(env, after.entries) == Pending(env, m.storage.entries)
  {
    match call
    case StorageRead(keyPtr, _) =>
      if InMemory(m.core.memory, keyPtr, 32) {
        LookupKeepsPending(env, m.storage.entries, Slice(m.core.memory, keyPtr, 32));
      }
    case Ccall(_, _, _, _, _, _, _) => LookupKeepsPending(env, m.storage.entries, ZERO_HASH);
    case _ => StorageKept(env, m, call);
  }

  /** In every state of a run: a fresh slot costs the set price, any other dirty slot the reset price. */
  lemma StepStoragePaid(env: Env, m: Machine, call: HostCall)
    requires m.storage.Cached? && RunCache(env, m.storage.entries)
    requires LedgerHolds(env, m) && StoragePaid(env, m.storage, m.core.gasCounter)
    ensures var after := Step(env, m, call).machine; StoragePaid(env, after.storage, after.core.gasCounter)
  {
    if call.StorageWrite? {
      WriteStoragePaid(env, m, call.keyPtr, call.valPtr);
    } else {
      var after := Step(env, m, call).machine;
      PendingKept(env, m, call);
      assert m.core.gasCounter <= after.core.gasCounter by { StepLedger(env, m, call); }
      PriceKept(env, m.storage, after.storage, m.core.gasCounter, after.core.gasCounter);
    }
  }
}
