/** What the host calls mean to a contract: when they succeed, what they cost, what they leave in
    memory and what later reads of storage see. */
module HostEffects {
  import opened Types
  import opened Numbers
  import opened Chain
  import opened Cache
  import opened Metering
  import opened HostMachine

  /** What a read of `k` would yield now. */
  function Seen(env: Env, storage: Storage, k: H256): H256 {
    match storage
    case Cached(entries) => View(entries, env.world, env.params.address, k)
    case Direct(slots) => ReadSlot(slots, k)
  }

  lemma LookupSees(env: Env, storage: Storage, k: H256)
    ensures SlotValue(env, Looked(env, storage, k), k) == Seen(env, storage, k)
    ensures forall j :: Seen(env, Looked(env, storage, k), j) == Seen(env, storage, j)
  {
  }

  lemma PutSees(env: Env, storage: Storage, k: H256, v: H256)
    ensures forall j :: Seen(env, PutValue(env, storage, k, v), j) == if j == k then v else Seen(env, storage, j)
  {
  }

  /** What no write has touched reads as the provider has it, and what it does not have as 32 zero bytes. */
  lemma FreshSlotReads(env: Env, k: H256)
    ensures var seen := Seen(env, Cached(map[]), k);
      if env.params.address in env.world && k in env.world[env.params.address].storage
      then seen == env.world[env.params.address].storage[k]
      else forall i | 0 <= i < 32 :: seen[i] == 0
  {
  }

  /** `after` is `before` with `bytes` at `ptr` and nothing else changed. */
  predicate Rewritten(before: Bytes, after: Bytes, ptr: nat, bytes: Bytes) {
    && |after| == |before| && ptr + |bytes| <= |after|
    && after[ptr..ptr + |bytes|] == bytes
    && forall i | 0 <= i < |before| && !(ptr <= i < ptr + |bytes|) :: after[i] == before[i]
  }

  lemma OverwriteRewrites(memory: Bytes, ptr: nat, bytes: Bytes)
    requires InMemory(memory, ptr, |bytes|)
    ensures Rewritten(memory, Overwrite(memory, ptr, bytes), ptr, bytes)
  {
  }

  /** `storage_read` costs 133 units and leaves the slot's value, and nothing else, in memory. */
  lemma StorageReadEffect(env: Env, m: Machine, keyPtr: u32, valPtr: u32)
    requires LedgerHolds(env, m)
    ensures var after := Step(env, m, StorageRead(keyPtr, valPtr));
      && (after.outcome.Ok? <==>
            && keyPtr + 32 <= |m.core.memory| && valPtr + 32 <= |m.core.memory|
            && m.core.gasCounter + 133 <= env.gasLimit)
      && (after.outcome.Ok? ==>
            && after.outcome == Ok(None)
            && after.machine.core.gasCounter == m.core.gasCounter + 133
            && Rewritten(m.core.memory, after.machine.core.memory, valPtr,
                         Seen(env, m.storage, m.core.memory[keyPtr..keyPtr + 32]))
            && forall j :: Seen(env, after.machine.storage, j) == Seen(env, m.storage, j))
  {
    if InMemory(m.core.memory, keyPtr, 32) {
      var key := Slice(m.core.memory, keyPtr, 32);
      LookupSees(env, m.storage, key);
      if InMemory(m.core.memory, valPtr, 32) {
        OverwriteRewrites(m.core.memory, valPtr, Seen(env, m.storage, key));
      }
    }
  }

  /** `storage_write` needs both words in memory. */
  lemma StorageWriteFails(env: Env, m: Machine, keyPtr: u32, valPtr: u32)
    requires keyPtr + 32 > |m.core.memory| || valPtr + 32 > |m.core.memory|
    ensures Step(env, m, StorageWrite(keyPtr, valPtr)) == StepResult(m, Err(Wasm))
  {
  }

  /** It makes later reads of its key see the word in memory, and of no other key; it costs 53333 units when
      it raises the slot from zero and 13333 otherwise. */
  lemma StorageWriteEffect(env: Env, m: Machine, keyPtr: u32, valPtr: u32)
    requires LedgerHolds(env, m)
    requires keyPtr + 32 <= |m.core.memory| && valPtr + 32 <= |m.core.memory|
    ensures var key, v := m.core.memory[keyPtr..keyPtr + 32], m.core.memory[valPtr..valPtr + 32];
            var after := Step(env, m, StorageWrite(keyPtr, valPtr));
            var cost := if Seen(env, m.storage, key) == ZERO_HASH && v != ZERO_HASH then 53333 else 13333;
      && after.outcome == (if m.core.gasCounter + cost <= env.gasLimit then Ok(None) else Err(GasLimit))
      && (after.outcome.Ok? ==>
            && after.machine.core.gasCounter == m.core.gasCounter + cost
            && after.machine.core.memory == m.core.memory
            && forall j :: Seen(env, after.machine.storage, j) == if j == key then v else Seen(env, m.storage, j))
      && (after.outcome.Err? ==> forall j :: Seen(env, after.machine.storage, j) == Seen(env, m.storage, j))
  {
    var key: H256, v: H256 := Slice(m.core.memory, keyPtr, 32), Slice(m.core.memory, valPtr, 32);
    LookupSees(env, m.storage, key);
    PutSees(env, Looked(env, m.storage, key), key, v);
  }

  /** `gas` charges its amount, and does nothing else. */
  lemma GasEffect(env: Env, m: Machine, amount: u32)
    requires LedgerHolds(env, m)
    ensures var after := Step(env, m, Gas(amount));
      if m.core.gasCounter + amount > env.gasLimit then after == StepResult(m, Err(GasLimit))
      else
        && after.outcome == Ok(None) && after.machine.storage == m.storage
        && after.machine.core == m.core.(gasCounter := m.core.gasCounter + amount,
                                         charges := m.core.charges + [Raw(amount)])
  {
  }

  /** What copying out costs: one unit per input byte, 64 for a word, 40 for an address. */
  function CopyCost(env: Env, datum: Datum): nat {
    match datum
    case InputBytes => |env.params.args|
    case CallValue => 64
    case BlockGasLimit => 64
    case _ => 40
  }

  function CopyLength(env: Env, datum: Datum): nat {
    match datum
    case InputBytes => |env.params.args|
    case CallValue => 32
    case BlockGasLimit => 32
    case _ => 20
  }

  /** Whether `bytes` tell the contract what it asked for. */
  predicate Conveys(env: Env, datum: Datum, bytes: Bytes) {
    match datum
    case InputBytes => bytes == env.params.args
    case CallValue => |bytes| == 32 && FromBigEndian(bytes) == env.params.value
    case BlockGasLimit => |bytes| == 32 && FromBigEndian(bytes) == 1000000
    case OwnAddress => bytes == env.params.address
    case Sender => bytes == env.params.sender
    case Origin => bytes == env.params.origin
    case BlockAuthor => bytes == env.blocks.author
  }

  lemma DatumSized(env: Env, datum: Datum)
    ensures |DatumBytes(env, datum)| == CopyLength(env, datum)
    ensures DatumCost(env, datum) == CopyCost(env, datum)
  {
  }

  lemma DatumConveys(env: Env, datum: Datum)
    ensures Conveys(env, datum, DatumBytes(env, datum))
  {
    match datum
    case CallValue => BigEndianWord(env.params.value);
    case BlockGasLimit => BigEndianWord(BLOCK_GAS_LIMIT);
    case _ =>
  }

  lemma StoringSucceeds(env: Env, m: Machine, amount: nat, ptr: u32, bytes: Bytes)
    requires LedgerHolds(env, m)
    ensures PaidThenStored(env, m, Raw(amount), ptr, bytes).outcome.Ok?
       <==> m.core.gasCounter + amount <= env.gasLimit && InMemory(m.core.memory, ptr, |bytes|)
  {
  }

  /** Copying out succeeds exactly when it can be paid and the bytes fit. */
  lemma CopySucceeds(env: Env, m: Machine, datum: Datum, ptr: u32)
    requires LedgerHolds(env, m)
    ensures Step(env, m, CopyOut(datum, ptr)).outcome.Ok? <==>
      m.core.gasCounter + CopyCost(env, datum) <= env.gasLimit
      && ptr + CopyLength(env, datum) <= |m.core.memory|
  {
    DatumSized(env, datum);
    StoringSucceeds(env, m, DatumCost(env, datum), ptr, DatumBytes(env, datum));
  }

  /** It then delivers the data of the transaction and the chain, and nothing else: bytes as they are,
      and words that read back as the number. */
  lemma CopyEffect(env: Env, m: Machine, datum: Datum, ptr: u32)
    requires Step(env, m, CopyOut(datum, ptr)).outcome.Ok?
    ensures var after := Step(env, m, CopyOut(datum, ptr)).machine;
      && after.core.gasCounter == m.core.gasCounter + CopyCost(env, datum)
      && after.storage == m.storage
      && Conveys(env, datum, DatumBytes(env, datum))
      && Rewritten(m.core.memory, after.core.memory, ptr, DatumBytes(env, datum))
  {
    DatumSized(env, datum);
    DatumConveys(env, datum);
    OverwriteRewrites(m.core.memory, ptr, DatumBytes(env, datum));
  }

  /** `block_hash` delivers the hash of a block there is for 53 units, and panics on any other. */
  lemma BlockHashEffect(env: Env, m: Machine, num: u64, ptr: u32)
    requires LedgerHolds(env, m)
    ensures var after := Step(env, m, BlockHash(num, ptr));
      if m.core.gasCounter + 53 > env.gasLimit then after.outcome == Err(GasLimit)
      else if num >= |env.blocks.hashes| then after.outcome == Err(HostPanic)
      else
        && (after.outcome.Ok? <==> ptr + 32 <= |m.core.memory|)
        && (after.outcome.Ok? ==> Rewritten(m.core.memory, after.machine.core.memory, ptr, env.blocks.hashes[num]))
  {
    if num < |env.blocks.hashes| && InMemory(m.core.memory, ptr, 32) {
      OverwriteRewrites(m.core.memory, ptr, env.blocks.hashes[num]);
    }
  }

  /** A log entry costs by its topics alone: the charge for data does not depend on the data. A
      refused or failed `elog` has at most been charged. */
  lemma ElogCost(env: Env, m: Machine, call: HostCall)
    requires LedgerHolds(env, m) && call.Elog?
    ensures var after, cost := Step(env, m, call), (64 + 375 + 375 * call.topicCount) * 8 / 3;
      && (after.outcome.Ok? <==>
            && call.topicCount <= 4 && m.core.gasCounter + cost <= env.gasLimit
            && call.dataPtr + call.dataLen <= |m.core.memory|
            && forall i | 0 <= i < call.topicCount :: TopicReadable(m.core.memory, call.topicPtr, i))
      && (call.topicCount > 4 ==> after.outcome == Err(Error.Log))
      && (after.outcome.Ok? ==> after.machine.core.gasCounter == m.core.gasCounter + cost)
      && after.machine.core.memory == m.core.memory && after.machine.storage == m.storage
  {
    if call.topicCount <= 4 { TopicsRead(m.core.memory, call.topicPtr, 0, call.topicCount); }
  }

  /** The value a `ccall` names. */
  function ValueAt(memory: Bytes, ptr: nat): nat
    requires ptr + 32 <= |memory|
  {
    FromBigEndian(memory[ptr..ptr + 32])
  }

  /** `ccall` never completes a call. It replies -1 when the value exceeds the balance compared with, or
      later when the gas amount overflows; anything else ends the run, paid for or not. */
  lemma CcallOutcome(env: Env, m: Machine, call: HostCall)
    requires LedgerHolds(env, m) && call.Ccall?
    ensures var memory, spent := m.core.memory, m.core.gasCounter;
      Step(env, m, call).outcome ==
        if call.addressPtr + 20 > |memory| || call.valPtr + 32 > |memory| then Err(Wasm)
        else if OwnBalance(env, m.storage) < ValueAt(memory, call.valPtr) then Ok(Some(-1))
        else if spent + 106 > env.gasLimit then Err(GasLimit)
        else if call.inputPtr + call.inputLen > |memory| then Err(Wasm)
        else if call.gas * 8 >= 0x1_0000_0000_0000_0000 then Ok(Some(-1))
        else if spent + 106 + call.gas * 8 / 3 > env.gasLimit then Err(GasLimit)
        else Err(Panic)
  {
  }

  /** The balance compared with is the account's nonce behind the cache, or 1 for a missing account; over a
      snapshot it is the account's balance, or 0. */
  lemma ComparedBalance(env: Env, storage: Storage)
    requires storage.Cached? ==> CleanAccount(storage.entries, env.world, env.params.address)
    ensures var a, world := env.params.address, env.world;
      OwnBalance(env, storage) ==
        match storage
        case Cached(_) => (if a in world then world[a].nonce else 1)
        case Direct(_) => (if a in world then world[a].balance else 0)
  {
  }

  /** So `ccall` never completes a call: when the run goes on, it replied -1. */
  lemma CcallNeverCalls(env: Env, m: Machine, call: HostCall)
    requires call.Ccall? && Step(env, m, call).outcome.Ok?
    requires m.storage.Cached? ==> CleanAccount(m.storage.entries, env.world, env.params.address)
    ensures Step(env, m, call).outcome == Ok(Some(-1))
    ensures call.valPtr + 32 <= |m.core.memory|
    ensures var known := env.params.address in env.world;
            var balance := if m.storage.Cached? then (if known then env.world[env.params.address].nonce else 1)
                           else (if known then env.world[env.params.address].balance else 0);
      balance < ValueAt(m.core.memory, call.valPtr) || call.gas * 8 >= 0x1_0000_0000_0000_0000
  {
  }

  // ----- queries -----

  /** A query answers or fails, and changes nothing at all. */
  lemma QueriesChangeNothing(env: Env, m: Machine, query: Query)
    ensures Step(env, m, Ask(query)).machine == m
  {
  }

  /** The input length is the number of bytes that copying the input delivers, as a signed 32-bit word. */
  lemma InputLengthAnswer(env: Env, m: Machine)
    ensures var n := |env.params.args|; var outcome := Step(env, m, Ask(InputLength)).outcome;
      && n == |DatumBytes(env, InputBytes)|
      && outcome.Ok? && outcome.value.Some?
      && -0x8000_0000 <= outcome.value.value < 0x8000_0000
      && (outcome.value.value - n) % 0x1_0000_0000 == 0
      && (n < 0x8000_0000 ==> outcome == Ok(Some(n)))
  {
  }

  /** Block number and timestamp are both the number of the last block; `debug` says nothing. */
  lemma BlockAnswers(env: Env, m: Machine, ptr: u32, len: u32)
    ensures Step(env, m, Ask(BlockNumber)).outcome == Ok(Some(|env.blocks.hashes| - 1))
    ensures Step(env, m, Ask(Timestamp)).outcome == Ok(Some(|env.blocks.hashes| - 1))
    ensures Step(env, m, Ask(Debug(ptr, len))).outcome == Ok(None)
  {
  }

  /** A contract never survives `panic`, `create`, `suicide` or `difficulty`, nor `dcall` or `scall`. */
  lemma QueriesThatFail(env: Env, m: Machine, query: Query)
    requires query.RaisePanic? || query.NewContract? || query.SelfDestruct? || query.Difficulty? || query.Dcall?
             || query.Scall?
    ensures Step(env, m, Ask(query)).outcome == Err(
      match query
      case RaisePanic(ptr, len) => (if ptr + len > |m.core.memory| then Wasm else Panic)
      case SelfDestruct(ptr) => (if ptr + 20 > |m.core.memory| then Wasm else Panic)
      case NewContract(_, _, _, _) => Panic
      case Difficulty(_) => NotSupported
      case _ => HostPanic)
  {
  }

  // ----- the bill -----

  /** What a call is charged when the run goes on after it, or ends in its `ret`. */
  function ChargesFor(env: Env, m: Machine, call: HostCall): seq<Charge> {
    match call
    case StorageRead(_, _) => [Adjusted(50)]
    case StorageWrite(keyPtr, valPtr) =>
      if keyPtr + 32 > |m.core.memory| || valPtr + 32 > |m.core.memory| then [] else
      var raises := Seen(env, m.storage, m.core.memory[keyPtr..keyPtr + 32]) == ZERO_HASH
                    && m.core.memory[valPtr..valPtr + 32] != ZERO_HASH;
      [Adjusted(if raises then 20000 else 5000)]
    case Ret(_, _) => []
    case Gas(amount) => [Raw(amount)]
    case Ccall(_, _, valPtr, _, _, _, _) =>
      if valPtr + 32 <= |m.core.memory| && OwnBalance(env, m.storage) < ValueAt(m.core.memory, valPtr)
      then [] else [Adjusted(40)]
    case Elog(_, topicCount, _, _) => [Adjusted(64 + 375 + 375 * topicCount)]
    case BlockHash(_, _) => [Adjusted(20)]
    case CopyOut(datum, _) => [Raw(CopyCost(env, datum))]
    case Ask(_) => []
  }

  lemma StepCharges(env: Env, m: Machine, call: HostCall)
    requires Step(env, m, call).outcome.Ok? || Step(env, m, call).outcome == Err(Return)
    ensures Step(env, m, call).machine.core.charges == m.core.charges + ChargesFor(env, m, call)
  {
    match call
    case StorageWrite(keyPtr, _) =>
      if InMemory(m.core.memory, keyPtr, 32) { LookupSees(env, m.storage, Slice(m.core.memory, keyPtr, 32)); }
    case Elog(topicPtr, topicCount, _, _) =>
      if topicCount <= 4 { TopicErrors(m.core.memory, topicPtr, 0, topicCount); }
    case _ =>
  }
}
