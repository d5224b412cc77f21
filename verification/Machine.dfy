/** The host side of the virtual machine as values: one step per host call, over either the
    write-back cache or a plain snapshot of the contract's storage. */
module HostMachine {
  import opened Types
  import opened Numbers
  import opened Chain
  import opened Cache
  import opened Metering

  /** What a contract can have copied into its memory. */
  datatype Datum = InputBytes | CallValue | OwnAddress | Sender | Origin | BlockAuthor | BlockGasLimit

  /** Calls that only answer or fail. `Dcall` and `Scall` can be imported but have no handler; `Debug`
      looks at its arguments only when tracing is on, and here it is off. */
  datatype Query =
    | InputLength
    | BlockNumber
    | Timestamp
    | Debug(ptr: u32, len: u32)
    | Difficulty(ptr: u32)
    | RaisePanic(ptr: u32, len: u32)
    | NewContract(endowmentPtr: u32, codePtr: u32, codeLen: u32, resultPtr: u32)
    | SelfDestruct(refundPtr: u32)
    | Dcall
    | Scall

  datatype HostCall =
    | StorageRead(keyPtr: u32, valPtr: u32)
    | StorageWrite(keyPtr: u32, valPtr: u32)
    | Ret(ptr: u32, len: u32)
    | Gas(amount: u32)
    | Ccall(gas: u64, addressPtr: u32, valPtr: u32, inputPtr: u32, inputLen: u32, resultPtr: u32, resultLen: u32)
    | Elog(topicPtr: u32, topicCount: u32, dataPtr: u32, dataLen: u32)
    | BlockHash(num: u64, ptr: u32)
    | CopyOut(datum: Datum, ptr: u32)
    | Ask(query: Query)

  /** Gas, linear memory, result and logs; `charges` records what the gas counter is the sum of. */
  datatype Core = Core(gasCounter: nat, memory: Bytes, result: Bytes, logs: seq<LogEntry>, charges: seq<Charge>)

  const FRESH_CORE := Core(0, [], [], [], [])

  /** Where the contract's storage lives during a run: behind the cache, or in a snapshot that
      every write goes straight into. */
  datatype Storage = Cached(entries: Entries) | Direct(slots: Slots)

  datatype Machine = Machine(core: Core, storage: Storage)

  /** What does not change during a run. */
  datatype Env = Env(world: World, blocks: BlockInfo, params: ActionParams, gasLimit: u64)

  /** A void call replies `None`; a call with a result replies its value. */
  datatype StepResult = StepResult(machine: Machine, outcome: Result<Option<int>>)

  function Looked(env: Env, storage: Storage, k: H256): Storage {
    match storage
    case Cached(entries) => Cached(WithSlot(entries, env.world, env.params.address, k))
    case Direct(_) => storage
  }

  function SlotValue(env: Env, storage: Storage, k: H256): H256 {
    match storage
    case Cached(entries) => CachedValue(entries, env.params.address, k)
    case Direct(slots) => ReadSlot(slots, k)
  }

  function PutValue(env: Env, storage: Storage, k: H256, v: H256): Storage {
    match storage
    case Cached(entries) => Cached(WithWrite(entries, env.world, env.params.address, k, v))
    case Direct(slots) => Direct(slots[k := v])
  }

  function BalanceLooked(env: Env, storage: Storage): Storage {
    match storage
    case Cached(entries) => Cached(WithAccount(entries, env.world, env.params.address))
    case Direct(_) => storage
  }

  /** The balance an account has in truth; none when there is no account. */
  function TrueBalance(world: World, a: Address): U256 {
    if a in world then world[a].balance else 0
  }

  /** The balance `ccall` compares with: the cached one, or over a snapshot the true one. */
  function OwnBalance(env: Env, storage: Storage): U256 {
    match storage
    case Cached(entries) => WithAccount(entries, env.world, env.params.address)[env.params.address].balance
    case Direct(_) => TrueBalance(env.world, env.params.address)
  }

  predicate InMemory(memory: Bytes, ptr: nat, len: nat) {
    ptr + len <= |memory|
  }

  function Slice(memory: Bytes, ptr: nat, len: nat): (b: Bytes)
    requires InMemory(memory, ptr, len)
    ensures |b| == len
  {
    memory[ptr..ptr + len]
  }

  function Overwrite(memory: Bytes, ptr: nat, bytes: Bytes): (m: Bytes)
    requires InMemory(memory, ptr, |bytes|)
    ensures |m| == |memory|
  {
    memory[..ptr] + bytes + memory[ptr + |bytes|..]
  }

  function Failed(m: Machine, e: Error): StepResult {
    StepResult(m, Err(e))
  }

  function Replied(m: Machine, value: Option<int>): StepResult {
    StepResult(m, Ok(value))
  }

  /** The machine after paying for `charge`, or nothing when the charge is refused. */
  function Paid(env: Env, m: Machine, charge: Charge): Option<Machine> {
    if !Affordable(m.core.gasCounter, env.gasLimit, Price(charge)) then None else
    Some(m.(core := m.core.(gasCounter := m.core.gasCounter + Price(charge), charges := m.core.charges + [charge])))
  }

  function Stored(m: Machine, ptr: u32, bytes: Bytes): StepResult {
    if !InMemory(m.core.memory, ptr, |bytes|) then Failed(m, Wasm) else
    Replied(m.(core := m.core.(memory := Overwrite(m.core.memory, ptr, bytes))), None)
  }

  function PaidThenStored(env: Env, m: Machine, charge: Charge, ptr: u32, bytes: Bytes): StepResult {
    match Paid(env, m, charge)
    case None => Failed(m, GasLimit)
    case Some(paid) => Stored(paid, ptr, bytes)
  }

  function StorageReadStep(env: Env, m: Machine, keyPtr: u32, valPtr: u32): StepResult {
    if !InMemory(m.core.memory, keyPtr, 32) then Failed(m, Wasm) else
    var key := Slice(m.core.memory, keyPtr, 32);
    var looked := m.(storage := Looked(env, m.storage, key));
    PaidThenStored(env, looked, Adjusted(SLOAD_GAS), valPtr, SlotValue(env, looked.storage, key))
  }

  /** Turning a zero slot non-zero costs more than any other write. */
  function WriteCharge(former: H256, v: H256): Charge {
    if former == ZERO_HASH && v != ZERO_HASH then Adjusted(SSTORE_SET_GAS) else Adjusted(SSTORE_RESET_GAS)
  }

  function StorageWriteStep(env: Env, m: Machine, keyPtr: u32, valPtr: u32): StepResult {
    if !InMemory(m.core.memory, keyPtr, 32) || !InMemory(m.core.memory, valPtr, 32) then Failed(m, Wasm) else
    var key, v := Slice(m.core.memory, keyPtr, 32), Slice(m.core.memory, valPtr, 32);
    var looked := m.(storage := Looked(env, m.storage, key));
    match Paid(env, looked, WriteCharge(SlotValue(env, looked.storage, key), v))
    case None => Failed(looked, GasLimit)
    case Some(paid) => Replied(paid.(storage := PutValue(env, paid.storage, key, v)), None)
  }

  function RetStep(m: Machine, ptr: u32, len: u32): StepResult {
    if !InMemory(m.core.memory, ptr, len) then Failed(m, Wasm) else
    Failed(m.(core := m.core.(result := Slice(m.core.memory, ptr, len))), Return)
  }

  function GasStep(env: Env, m: Machine, amount: u32): StepResult {
    match Paid(env, m, Raw(amount))
    case None => Failed(m, GasLimit)
    case Some(paid) => Replied(paid, None)
  }

  /** Truncation to a signed 32-bit word. */
  function ToI32(n: nat): int {
    var w := n % U32_LIMIT;
    if w < 0x8000_0000 then w else w - U32_LIMIT
  }

  /** Once the balance suffices: a gas amount that overflows replies -1, the rest ends in an error. */
  function CallOnwards(env: Env, m: Machine, gas: u64, inputPtr: u32, inputLen: u32): StepResult {
    match Paid(env, m, Adjusted(CALL_GAS))
    case None => Failed(m, GasLimit)
    case Some(paid) =>
      if !InMemory(paid.core.memory, inputPtr, inputLen) then Failed(paid, Wasm)
      else if gas * OPCODES_DIV >= U64_LIMIT then Replied(paid, Some(-1))
      else match Paid(env, paid, Adjusted(gas))
           case None => Failed(paid, GasLimit)
           case Some(more) => Failed(more, Panic)
  }

  /** A value transfer larger than the balance replies -1. */
  function CcallStep(env: Env, m: Machine, gas: u64, addressPtr: u32, valPtr: u32,
                     inputPtr: u32, inputLen: u32): StepResult {
    if !InMemory(m.core.memory, addressPtr, 20) || !InMemory(m.core.memory, valPtr, 32) then Failed(m, Wasm) else
    var looked := m.(storage := BalanceLooked(env, m.storage));
    if OwnBalance(env, m.storage) < FromBigEndian(Slice(m.core.memory, valPtr, 32)) then Replied(looked, Some(-1)) else
    CallOnwards(env, looked, gas, inputPtr, inputLen)
  }

  function LogCharge(topicCount: nat): Charge {
    Adjusted(LOG_DATA_GAS * LOG_DATA_GAS + LOG_GAS + LOG_TOPIC_GAS * topicCount)
  }

  /** Topics `i..count`, or the first failure. */
  function TopicsFrom(memory: Bytes, topicPtr: u32, i: nat, count: nat): Result<seq<H256>>
    requires i <= count
    decreases count - i
  {
    if i == count then Ok([])
    else if i * 32 + topicPtr >= U32_LIMIT then Err(MemoryAccessViolation)
    else if !InMemory(memory, i * 32 + topicPtr, 32) then Err(Wasm)
    else match TopicsFrom(memory, topicPtr, i + 1, count)
         case Err(e) => Err(e)
         case Ok(rest) => Ok([Slice(memory, i * 32 + topicPtr, 32)] + rest)
  }

  function ElogStep(env: Env, m: Machine, topicPtr: u32, topicCount: u32, dataPtr: u32, dataLen: u32): StepResult {
    if topicCount > 4 then Failed(m, Error.Log) else
    match Paid(env, m, LogCharge(topicCount))
    case None => Failed(m, GasLimit)
    case Some(paid) =>
      match TopicsFrom(m.core.memory, topicPtr, 0, topicCount)
      case Err(e) => Failed(paid, e)
      case Ok(topics) =>
        if !InMemory(m.core.memory, dataPtr, dataLen) then Failed(paid, Wasm) else
        var entry := LogEntry(env.params.address, topics, Slice(m.core.memory, dataPtr, dataLen));
        Replied(paid.(core := paid.core.(logs := paid.core.logs + [entry])), None)
  }

  /** Pays, then stores the hash of a block; a block that does not exist is an index out of range. */
  function BlockHashStep(env: Env, m: Machine, num: u64, ptr: u32): StepResult {
    match Paid(env, m, Adjusted(BLOCKHASH_GAS))
    case None => Failed(m, GasLimit)
    case Some(paid) =>
      if num >= |env.blocks.hashes| then Failed(paid, HostPanic)
      else Stored(paid, ptr, env.blocks.hashes[num])
  }

  function DatumBytes(env: Env, datum: Datum): Bytes {
    match datum
    case InputBytes => env.params.args
    case CallValue => BigEndian(env.params.value)
    case OwnAddress => env.params.address
    case Sender => env.params.sender
    case Origin => env.params.origin
    case BlockAuthor => env.blocks.author
    case BlockGasLimit => BigEndian(BLOCK_GAS_LIMIT)
  }

  function DatumCost(env: Env, datum: Datum): nat {
    match datum
    case InputBytes => |env.params.args| * MEMCPY
    case CallValue => STATIC_U256
    case BlockGasLimit => STATIC_U256
    case _ => STATIC_ADDRESS
  }

  /** The timestamp is the block number too. */
  function Answer(env: Env, memory: Bytes, query: Query): Result<Option<int>> {
    match query
    case InputLength => Ok(Some(ToI32(|env.params.args|)))
    case BlockNumber => Ok(Some(|env.blocks.hashes| - 1))
    case Timestamp => Ok(Some(|env.blocks.hashes| - 1))
    case Debug(_, _) => Ok(None)
    case Difficulty(_) => Err(NotSupported)
    case RaisePanic(ptr, len) => Err(if InMemory(memory, ptr, len) then Panic else Wasm)
    case NewContract(_, _, _, _) => Err(Panic)
    case SelfDestruct(ptr) => Err(if InMemory(memory, ptr, 20) then Panic else Wasm)
    case Dcall => Err(HostPanic)
    case Scall => Err(HostPanic)
  }

  /** The dispatch over host calls. */
  function Step(env: Env, m: Machine, call: HostCall): StepResult {
    match call
    case StorageRead(keyPtr, valPtr) => StorageReadStep(env, m, keyPtr, valPtr)
    case StorageWrite(keyPtr, valPtr) => StorageWriteStep(env, m, keyPtr, valPtr)
    case Ret(ptr, len) => RetStep(m, ptr, len)
    case Gas(amount) => GasStep(env, m, amount)
    case Ccall(gas, addressPtr, valPtr, inputPtr, inputLen, _, _) =>
      CcallStep(env, m, gas, addressPtr, valPtr, inputPtr, inputLen)
    case Elog(topicPtr, topicCount, dataPtr, dataLen) => ElogStep(env, m, topicPtr, topicCount, dataPtr, dataLen)
    case BlockHash(num, ptr) => BlockHashStep(env, m, num, ptr)
    case CopyOut(datum, ptr) => PaidThenStored(env, m, Raw(DatumCost(env, datum)), ptr, DatumBytes(env, datum))
    case Ask(query) => StepResult(m, Answer(env, m.core.memory, query))
  }

  // ----- the gas ledger -----

  /** The counter is the exact sum of the charges that were granted, within the limit. */
  predicate LedgerHolds(env: Env, m: Machine) {
    m.core.gasCounter == Total(m.core.charges) && m.core.gasCounter <= env.gasLimit
  }

  /** The gas left, or an error when the counter has passed the limit. */
  function LeftOver(env: Env, m: Machine): Result<u64> {
    if m.core.gasCounter > env.gasLimit then Err(InvalidGasState) else Ok(env.gasLimit - m.core.gasCounter)
  }

  /** `after` has been granted what `before` had, and possibly more. */
  predicate Grown(before: Machine, after: Machine) {
    before.core.charges <= after.core.charges && before.core.gasCounter <= after.core.gasCounter
  }

  lemma PaidLedger(env: Env, m: Machine, charge: Charge)
    requires LedgerHolds(env, m) && Paid(env, m, charge).Some?
    ensures LedgerHolds(env, Paid(env, m, charge).value) && Grown(m, Paid(env, m, charge).value)
  {
  }

  /** A charge is refused exactly when it would exceed the limit: the limit is a 64-bit number, so
      the overflow check never refuses more. */
  lemma RefusedExactly(env: Env, m: Machine, charge: Charge)
    requires LedgerHolds(env, m)
    ensures Paid(env, m, charge).None? <==> Total(m.core.charges) + Price(charge) > env.gasLimit
  {
  }

  lemma StoredLedger(env: Env, m: Machine, charge: Charge, ptr: u32, bytes: Bytes)
    requires LedgerHolds(env, m)
    ensures var after := PaidThenStored(env, m, charge, ptr, bytes).machine;
      LedgerHolds(env, after) && Grown(m, after)
  {
  }

  lemma CcallLedger(env: Env, m: Machine, gas: u64, addressPtr: u32, valPtr: u32, inputPtr: u32, inputLen: u32)
    requires LedgerHolds(env, m)
    ensures var after := CcallStep(env, m, gas, addressPtr, valPtr, inputPtr, inputLen).machine;
      LedgerHolds(env, after) && Grown(m, after)
  {
  }

  lemma WriteLedger(env: Env, m: Machine, keyPtr: u32, valPtr: u32)
    requires LedgerHolds(env, m)
    ensures var after := StorageWriteStep(env, m, keyPtr, valPtr).machine;
      LedgerHolds(env, after) && Grown(m, after)
  {
    if InMemory(m.core.memory, keyPtr, 32) && InMemory(m.core.memory, valPtr, 32) {
      var key, v := Slice(m.core.memory, keyPtr, 32), Slice(m.core.memory, valPtr, 32);
      var looked := m.(storage := Looked(env, m.storage, key));
      var charge := WriteCharge(SlotValue(env, looked.storage, key), v);
      if Paid(env, looked, charge).Some? { PaidLedger(env, looked, charge); }
    }
  }

  /** Every host call keeps the ledger exact, and no call lowers the counter. */
  lemma StepLedger(env: Env, m: Machine, call: HostCall)
    requires LedgerHolds(env, m)
    ensures LedgerHolds(env, Step(env, m, call).machine) && Grown(m, Step(env, m, call).machine)
  {
    match call
    case StorageRead(keyPtr, valPtr) =>
      if InMemory(m.core.memory, keyPtr, 32) {
        var key := Slice(m.core.memory, keyPtr, 32);
        var looked := m.(storage := Looked(env, m.storage, key));
        StoredLedger(env, looked, Adjusted(SLOAD_GAS), valPtr, SlotValue(env, looked.storage, key));
      }
    case StorageWrite(keyPtr, valPtr) => WriteLedger(env, m, keyPtr, valPtr);
    case Gas(amount) => if Paid(env, m, Raw(amount)).Some? { PaidLedger(env, m, Raw(amount)); }
    case Ccall(gas, addressPtr, valPtr, inputPtr, inputLen, _, _) =>
      CcallLedger(env, m, gas, addressPtr, valPtr, inputPtr, inputLen);
    case CopyOut(datum, ptr) => StoredLedger(env, m, Raw(DatumCost(env, datum)), ptr, DatumBytes(env, datum));
    case BlockHash(_, _) =>
      if Paid(env, m, Adjusted(BLOCKHASH_GAS)).Some? { PaidLedger(env, m, Adjusted(BLOCKHASH_GAS)); }
    case Elog(_, topicCount, _, _) =>
      if Paid(env, m, LogCharge(topicCount)).Some? { PaidLedger(env, m, LogCharge(topicCount)); }
    case _ =>
  }

  // ----- results and logs -----

  /** Only a `ret` of readable memory sets the result, and it always ends the run. */
  lemma StepResultOnlyByRet(env: Env, m: Machine, call: HostCall)
    ensures var after := Step(env, m, call);
      after.outcome == Err(Return) <==> call.Ret? && call.ptr + call.len <= |m.core.memory|
    ensures var after := Step(env, m, call);
      if after.outcome == Err(Return) then
        after.machine.core.result == m.core.memory[call.ptr..call.ptr + call.len]
        && after.machine.storage == m.storage
      else after.machine.core.result == m.core.result
    ensures Step(env, m, call).outcome != Err(Suicide)
  {
    if call.Elog? && call.topicCount <= 4 { TopicErrors(m.core.memory, call.topicPtr, 0, call.topicCount); }
  }

  /** The calls no run survives: those without a handler, and the hash of a block there is not. */
  predicate Panics(env: Env, call: HostCall) {
    call == Ask(Dcall) || call == Ask(Scall) || (call.BlockHash? && call.num >= |env.blocks.hashes|)
  }

  /** A step panics exactly on such a call; `block_hash` has to be paid for first. */
  lemma StepPanicsExactly(env: Env, m: Machine, call: HostCall)
    ensures Step(env, m, call).outcome == Err(HostPanic)
       <==> Panics(env, call) && Step(env, m, call).outcome != Err(GasLimit)
  {
    if call.Elog? && call.topicCount <= 4 { TopicErrors(m.core.memory, call.topicPtr, 0, call.topicCount); }
  }

  lemma {:induction false} TopicErrors(memory: Bytes, topicPtr: u32, i: nat, count: nat)
    requires i <= count
    ensures TopicsFrom(memory, topicPtr, i, count).Err? ==>
              TopicsFrom(memory, topicPtr, i, count).error in {MemoryAccessViolation, Wasm}
    decreases count - i
  {
    if i < count && i * 32 + topicPtr < U32_LIMIT { TopicErrors(memory, topicPtr, i + 1, count); }
  }

  /** The j-th topic lies in memory and starts below the 32-bit address limit. */
  predicate TopicReadable(memory: Bytes, topicPtr: u32, j: nat) {
    topicPtr + 32 * j < 0x1_0000_0000 && topicPtr + 32 * j + 32 <= |memory|
  }

  /** All topics are read when they lie in memory, below the 32-bit address limit; then the i-th
      topic is the 32 bytes at `topicPtr + 32 * i`. */
  lemma {:induction false} TopicsRead(memory: Bytes, topicPtr: u32, i: nat, count: nat)
    requires i <= count
    ensures TopicsFrom(memory, topicPtr, i, count).Ok? <==>
      forall j | i <= j < count :: TopicReadable(memory, topicPtr, j)
    ensures match TopicsFrom(memory, topicPtr, i, count)
      case Err(_) => true
      case Ok(topics) =>
        && |topics| == count - i
        && forall j | i <= j < count :: topicPtr + 32 * j + 32 <= |memory|
             && topics[j - i] == memory[topicPtr + 32 * j..topicPtr + 32 * j + 32]
    decreases count - i
  {
    if i < count {
      TopicsRead(memory, topicPtr, i + 1, count);
      assert TopicReadable(memory, topicPtr, i)
        <==> i * 32 + topicPtr < U32_LIMIT && InMemory(memory, i * 32 + topicPtr, 32);
      if TopicsFrom(memory, topicPtr, i, count).Ok? {
        var topics := TopicsFrom(memory, topicPtr, i, count).value;
        var rest := TopicsFrom(memory, topicPtr, i + 1, count).value;
        assert topics == [topics[0]] + rest;
      }
    }
  }

  /** A successful `elog` appends one entry holding exactly the bytes pointed at; nothing else
      touches the logs. */
  lemma LogEffect(env: Env, m: Machine, call: HostCall)
    ensures var after := Step(env, m, call);
      if call.Elog? && after.outcome.Ok? then
        && |after.machine.core.logs| == |m.core.logs| + 1 && m.core.logs <= after.machine.core.logs
        && var entry := after.machine.core.logs[|m.core.logs|];
           && entry.address == env.params.address && |entry.topics| == call.topicCount <= 4
           && call.dataPtr + call.dataLen <= |m.core.memory|
           && entry.data == m.core.memory[call.dataPtr..call.dataPtr + call.dataLen]
           && forall i | 0 <= i < |entry.topics| ::
                call.topicPtr + 32 * i + 32 <= |m.core.memory|
                && entry.topics[i] == m.core.memory[call.topicPtr + 32 * i..call.topicPtr + 32 * i + 32]
      else after.machine.core.logs == m.core.logs
  {
    if call.Elog? && call.topicCount <= 4 { TopicsRead(m.core.memory, call.topicPtr, 0, call.topicCount); }
  }

  const LOG_PRICE := ToWasmGas(LOG_DATA_GAS * LOG_DATA_GAS + LOG_GAS)

  /** Every log entry has been paid for. */
  predicate LogsPaid(m: Machine) {
    LOG_PRICE * |m.core.logs| <= m.core.gasCounter
  }

  lemma StepLogsPaid(env: Env, m: Machine, call: HostCall)
    requires LogsPaid(m)
    ensures LogsPaid(Step(env, m, call).machine)
  {
  }
}
