/** The runtime object that serves a contract's host calls. Each method does what the corresponding
    step of the machine says, with the cache object as storage. */
module RuntimeHost {
  import opened Types
  import opened Numbers
  import opened Chain
  import opened Cache
  import opened StateCache
  import opened Metering
  import opened HostMachine

  class Runtime {
    const params: ActionParams
    const gasLimit: u64
    const state: State
    var gasCounter: u64
    var memory: Bytes
    var result: Bytes
    var logs: seq<LogEntry>
    ghost var charges: seq<Charge>

    constructor (params: ActionParams, state: State, gasLimit: u64)
      ensures this.params == params && this.state == state && this.gasLimit == gasLimit
      ensures Here() == Machine(FRESH_CORE, Cached(state.accounts))
    {
      this.params := params;
      this.state := state;
      this.gasLimit := gasLimit;
      gasCounter, memory, result, logs, charges := 0, [], [], [], [];
    }

    ghost predicate Valid()
      reads this, state, state.provider
    {
      state.Valid()
    }

    ghost function Here(): Machine
      reads this, state
    {
      Machine(Core(gasCounter, memory, result, logs, charges), Cached(state.accounts))
    }

    ghost function TheEnv(): Env
      reads this, state, state.provider
      requires AUTHOR_ALIAS in state.provider.accounts
    {
      Env(state.TheWorld(), state.provider.TheBlocks(), params, gasLimit)
    }

    /** Answers whether the run may continue. */
    method ChargeGas(amount: u64, ghost charge: Charge) returns (ok: bool)
      requires Valid()
      requires Price(charge) == amount
      modifies this`gasCounter, this`charges
      ensures Valid()
      ensures Paid(TheEnv(), old(Here()), charge) == if ok then Some(Here()) else None
      ensures !ok ==> Here() == old(Here())
    {
      var prev := gasCounter;
      if prev + amount >= U64_LIMIT {
        return false;
      }
      if prev + amount > gasLimit {
        return false;
      }
      gasCounter := prev + amount;
      charges := charges + [charge];
      return true;
    }

    method ChargeRaw(amount: u64) returns (ok: bool)
      requires Valid()
      modifies this`gasCounter, this`charges
      ensures Valid()
      ensures Paid(TheEnv(), old(Here()), Raw(amount)) == if ok then Some(Here()) else None
      ensures !ok ==> Here() == old(Here())
    {
      ok := ChargeGas(amount, Raw(amount));
    }

    /** Scales a nominal charge; `None` stands for an amount that overflowed, as does a product
        that leaves 64 bits. */
    method AdjustedOverflowCharge(nominal: Option<u64>) returns (ok: bool)
      requires Valid()
      modifies this`gasCounter, this`charges
      ensures Valid()
      ensures nominal.Some? && nominal.value * OPCODES_DIV < U64_LIMIT ==>
                Paid(TheEnv(), old(Here()), Adjusted(nominal.value)) == if ok then Some(Here()) else None
      ensures nominal.None? || nominal.value * OPCODES_DIV >= U64_LIMIT ==> !ok
      ensures !ok ==> Here() == old(Here())
    {
      if nominal.None? || nominal.value * OPCODES_DIV >= U64_LIMIT {
        return false;
      }
      ok := ChargeGas(nominal.value * OPCODES_DIV / OPCODES_MUL, Adjusted(nominal.value));
    }

    method AdjustedCharge(nominal: u64) returns (ok: bool)
      requires Valid()
      requires nominal * OPCODES_DIV < U64_LIMIT
      modifies this`gasCounter, this`charges
      ensures Valid()
      ensures Paid(TheEnv(), old(Here()), Adjusted(nominal)) == if ok then Some(Here()) else None
      ensures !ok ==> Here() == old(Here())
    {
      ok := ChargeGas(nominal * OPCODES_DIV / OPCODES_MUL, Adjusted(nominal));
    }

    method GetMemory(ptr: nat, len: nat) returns (r: Result<Bytes>)
      ensures r == if InMemory(memory, ptr, len) then Ok(Slice(memory, ptr, len)) else Err(Wasm)
    {
      if ptr + len <= |memory| {
        return Ok(memory[ptr..ptr + len]);
      }
      return Err(Wasm);
    }

    method SetMemory(ptr: u32, bytes: Bytes) returns (r: Result<Option<int>>)
      modifies this`memory
      ensures StepResult(Here(), r) == Stored(old(Here()), ptr, bytes)
    {
      if ptr + |bytes| > |memory| {
        return Err(Wasm);
      }
      memory := memory[..ptr] + bytes + memory[ptr + |bytes|..];
      return Ok(None);
    }

    method ServeStorageRead(keyPtr: u32, valPtr: u32) returns (r: Result<Option<int>>)
      requires Valid()
      modifies this, state
      ensures Valid() && StepResult(Here(), r) == StorageReadStep(TheEnv(), old(Here()), keyPtr, valPtr)
    {
      var key := GetMemory(keyPtr, 32);
      if key.Err? { return Err(key.error); }
      var val := state.StorageAt(params.address, key.value);
      LookupReadsView(old(state.accounts), TheEnv().world, params.address, key.value);
      var ok := AdjustedCharge(SLOAD_GAS);
      if !ok { return Err(GasLimit); }
      r := SetMemory(valPtr, val);
    }

    method ChargeWrite(formerVal: H256, val: H256) returns (ok: bool)
      requires Valid()
      modifies this`gasCounter, this`charges
      ensures Valid()
      ensures Paid(TheEnv(), old(Here()), WriteCharge(formerVal, val)) == if ok then Some(Here()) else None
      ensures !ok ==> Here() == old(Here())
    {
      if formerVal == ZERO_HASH && val != ZERO_HASH {
        ok := AdjustedCharge(SSTORE_SET_GAS);
      } else {
        ok := AdjustedCharge(SSTORE_RESET_GAS);
      }
    }

    method ServeStorageWrite(keyPtr: u32, valPtr: u32) returns (r: Result<Option<int>>)
      requires Valid()
      modifies this, state
      ensures Valid() && StepResult(Here(), r) == StorageWriteStep(TheEnv(), old(Here()), keyPtr, valPtr)
    {
      var key := GetMemory(keyPtr, 32);
      if key.Err? { return Err(key.error); }
      var val := GetMemory(valPtr, 32);
      if val.Err? { return Err(val.error); }
      var formerVal := state.StorageAt(params.address, key.value);
      LookupReadsView(old(state.accounts), TheEnv().world, params.address, key.value);
      var ok := ChargeWrite(formerVal, val.value);
      if !ok { return Err(GasLimit); }
      state.PutSlot(params.address, key.value, val.value);
      return Ok(None);
    }

    method ServeRet(ptr: u32, len: u32) returns (r: Result<Option<int>>)
      modifies this
      ensures StepResult(Here(), r) == RetStep(old(Here()), ptr, len)
    {
      var bytes := GetMemory(ptr, len);
      if bytes.Err? { return Err(bytes.error); }
      result := bytes.value;
      return Err(Return);
    }

    /** An error if more has been charged than the limit allows. */
    method GasLeft() returns (left: Result<u64>)
      requires Valid()
      ensures left == LeftOver(TheEnv(), Here())
    {
      if gasCounter > gasLimit {
        return Err(InvalidGasState);
      }
      return Ok(gasLimit - gasCounter);
    }

    method ServeGas(amount: u32) returns (r: Result<Option<int>>)
      requires Valid()
      modifies this
      ensures Valid()
      ensures StepResult(Here(), r) == GasStep(TheEnv(), old(Here()), amount)
    {
      var ok := ChargeRaw(amount);
      return if ok then Ok(None) else Err(GasLimit);
    }

    /** Charges, then writes `bytes`: fetched input, 256-bit words and addresses. */
    method ReturnBytes(charge: u64, ptr: u32, bytes: Bytes) returns (r: Result<Option<int>>)
      requires Valid()
      modifies this
      ensures Valid()
      ensures StepResult(Here(), r) == PaidThenStored(TheEnv(), old(Here()), Raw(charge), ptr, bytes)
    {
      var ok := ChargeRaw(charge);
      if !ok { return Err(GasLimit); }
      r := SetMemory(ptr, bytes);
    }

    method ServeCcall(gas: u64, addressPtr: u32, valPtr: u32, inputPtr: u32, inputLen: u32)
      returns (r: Result<Option<int>>)
      requires Valid()
      modifies this, state
      ensures Valid()
      ensures StepResult(Here(), r)
           == CcallStep(TheEnv(), old(Here()), gas, addressPtr, valPtr, inputPtr, inputLen)
    {
      var address := GetMemory(addressPtr, 20);
      if address.Err? { return Err(address.error); }
      var val := GetMemory(valPtr, 32);
      if val.Err? { return Err(val.error); }
      var balance := state.Balance(params.address);
      if balance < FromBigEndian(val.value) { return Ok(Some(-1)); }
      r := CallOnward(gas, inputPtr, inputLen);
    }

    /** What `ccall` still does once the balance suffices. */
    method CallOnward(gas: u64, inputPtr: u32, inputLen: u32) returns (r: Result<Option<int>>)
      requires Valid()
      modifies this
      ensures Valid() && StepResult(Here(), r) == CallOnwards(TheEnv(), old(Here()), gas, inputPtr, inputLen)
    {
      var ok := AdjustedCharge(CALL_GAS);
      if !ok { return Err(GasLimit); }
      var payload := GetMemory(inputPtr, inputLen);
      if payload.Err? { return Err(payload.error); }
      if gas * OPCODES_DIV >= U64_LIMIT { return Ok(Some(-1)); }
      ok := ChargeGas(gas * OPCODES_DIV / OPCODES_MUL, Adjusted(gas));
      if !ok { return Err(GasLimit); }
      return Err(Panic);
    }

    /** Fills the topic vector from memory, one 32-byte topic at a time. */
    method ReadTopics(topicPtr: u32, topicCount: u32) returns (r: Result<seq<H256>>)
      requires topicCount <= 4
      ensures r == TopicsFrom(memory, topicPtr, 0, topicCount)
    {
      var topics: seq<H256> := [];
      var i := 0;
      assert forall rest: seq<H256> :: topics + rest == rest;
      while i < topicCount
        invariant 0 <= i <= topicCount && |topics| == i
        invariant TopicsFrom(memory, topicPtr, 0, topicCount) ==
          match TopicsFrom(memory, topicPtr, i, topicCount)
          case Ok(rest) => Ok(topics + rest)
          case Err(e) => Err(e)
      {
        var offset := i * 32 + topicPtr;
        if offset >= U32_LIMIT { return Err(MemoryAccessViolation); }
        var topic := GetMemory(offset, 32);
        if topic.Err? { return Err(topic.error); }
        assert forall rest: seq<H256> :: topics + ([topic.value] + rest) == (topics + [topic.value]) + rest;
        topics := topics + [topic.value];
        i := i + 1;
      }
      assert topics + [] == topics;
      return Ok(topics);
    }

    method ServeElog(topicPtr: u32, topicCount: u32, dataPtr: u32, dataLen: u32) returns (r: Result<Option<int>>)
      requires Valid()
      modifies this
      ensures Valid()
      ensures StepResult(Here(), r) == ElogStep(TheEnv(), old(Here()), topicPtr, topicCount, dataPtr, dataLen)
    {
      if topicCount > 4 { return Err(Error.Log); }
      var ok := AdjustedOverflowCharge(Some(LOG_DATA_GAS * LOG_DATA_GAS + LOG_GAS + LOG_TOPIC_GAS * topicCount));
      if !ok { return Err(GasLimit); }
      var topics := ReadTopics(topicPtr, topicCount);
      if topics.Err? { return Err(topics.error); }
      var data := GetMemory(dataPtr, dataLen);
      if data.Err? { return Err(data.error); }
      logs := logs + [LogEntry(params.address, topics.value, data.value)];
      return Ok(None);
    }

    method ServeBlockHash(num: u64, ptr: u32) returns (r: Result<Option<int>>)
      requires Valid()
      modifies this
      ensures Valid() && StepResult(Here(), r) == BlockHashStep(TheEnv(), old(Here()), num, ptr)
    {
      var ok := AdjustedCharge(BLOCKHASH_GAS);
      if !ok { return Err(GasLimit); }
      var hash := state.BlockHash(num);
      if hash.Err? { return Err(hash.error); }
      r := SetMemory(ptr, hash.value);
    }

    method ServeCopyOut(datum: Datum, ptr: u32) returns (r: Result<Option<int>>)
      requires Valid() && |params.args| < U64_LIMIT
      modifies this
      ensures Valid()
      ensures StepResult(Here(), r) ==
        PaidThenStored(TheEnv(), old(Here()), Raw(DatumCost(TheEnv(), datum)), ptr, DatumBytes(TheEnv(), datum))
    {
      match datum
      case InputBytes => r := ReturnBytes(|params.args| * MEMCPY, ptr, params.args);
      case CallValue => r := ReturnBytes(STATIC_U256, ptr, BigEndian(params.value));
      case OwnAddress => r := ReturnBytes(STATIC_ADDRESS, ptr, params.address);
      case Sender => r := ReturnBytes(STATIC_ADDRESS, ptr, params.sender);
      case Origin => r := ReturnBytes(STATIC_ADDRESS, ptr, params.origin);
      case BlockAuthor =>
        var author := state.BlockAuthor();
        r := ReturnBytes(STATIC_ADDRESS, ptr, author);
      case BlockGasLimit => r := ReturnBytes(STATIC_U256, ptr, BigEndian(BLOCK_GAS_LIMIT));
    }

    /** Ends the run, after reading the bytes pointed at: `panic`, and the unfinished `suicide`. */
    method ServeAbort(ptr: u32, len: u32) returns (r: Result<Option<int>>)
      ensures r == Err(if InMemory(memory, ptr, len) then Panic else Wasm)
    {
      var bytes := GetMemory(ptr, len);
      return Err(if bytes.Err? then bytes.error else Panic);
    }

    method ServeQuery(query: Query) returns (r: Result<Option<int>>)
      requires Valid()
      ensures r == Answer(TheEnv(), memory, query)
    {
      match query
      case InputLength => r := Ok(Some(ToI32(|params.args|)));
      case BlockNumber =>
        var num := state.BlockNumber();
        r := Ok(Some(num));
      case Timestamp =>
        var num := state.Timestamp();
        r := Ok(Some(num));
      case Debug(_, _) => r := Ok(None);
      case Difficulty(_) => r := Err(NotSupported);
      case RaisePanic(ptr, len) => r := ServeAbort(ptr, len);
      case NewContract(_, _, _, _) => r := Err(Panic);
      case SelfDestruct(ptr) => r := ServeAbort(ptr, 20);
      case Dcall => r := Err(HostPanic);
      case Scall => r := Err(HostPanic);
    }

    /** The dispatch of a host call. */
    method InvokeIndex(call: HostCall) returns (r: Result<Option<int>>)
      requires Valid() && |params.args| < U64_LIMIT
      modifies this, state
      ensures Valid() && StepResult(Here(), r) == Step(TheEnv(), old(Here()), call)
    {
      match call
      case StorageRead(keyPtr, valPtr) => r := ServeStorageRead(keyPtr, valPtr);
      case StorageWrite(keyPtr, valPtr) => r := ServeStorageWrite(keyPtr, valPtr);
      case Ret(ptr, len) => r := ServeRet(ptr, len);
      case Gas(amount) => r := ServeGas(amount);
      case Ccall(gas, addressPtr, valPtr, inputPtr, inputLen, _, _) =>
        r := ServeCcall(gas, addressPtr, valPtr, inputPtr, inputLen);
      case Elog(topicPtr, topicCount, dataPtr, dataLen) => r := ServeElog(topicPtr, topicCount, dataPtr, dataLen);
      case BlockHash(num, ptr) => r := ServeBlockHash(num, ptr);
      case CopyOut(datum, ptr) => r := ServeCopyOut(datum, ptr);
      case Ask(query) => r := ServeQuery(query);
    }
  }
}
