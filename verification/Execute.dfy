/** Executing one transaction against the chain: the code's own way, through the cache and a flush,
    and a reference that writes into a snapshot and publishes it at the end. */
module Execution {
  import opened Types
  import opened Preimages
  import opened Chain
  import opened Cache
  import opened StateCache
  import opened Metering
  import opened HostMachine
  import opened Refinement
  import opened Runs
  import opened RuntimeHost

  /** A loaded contract: its initial memory in pages, its start function, and the exported `call`,
      if there is one, which may depend on what the start function saw. */
  datatype Module = Module(pages: u32, start: Strategy, entry: History -> Option<Strategy>)

  /** What a transaction meets: the hash function, the loader that parses, meters and links code, the
      blocks so far, and how many contracts the chain has numbered. */
  datatype Host = Host(keccak: Hasher, load: Bytes -> Option<Module>, blocks: BlockInfo, counter: nat)

  datatype Prepared = Prepared(env: Env, loaded: Module)

  function TargetOf(tx: Transaction, host: Host): Address {
    match tx.action
    case Create(code, salt) => TruncateToAddress(host.keccak(AddressPreimage(tx.sender, salt, host.keccak(code))))
    case Call(address) => address
  }

  function ParamsFor(world: World, tx: Transaction, host: Host): Result<ActionParams> {
    var target := TargetOf(tx, host);
    match tx.action
    case Create(code, _) => Ok(ActionParams(target, tx.sender, tx.sender, tx.gas, tx.value, code, tx.args))
    case Call(_) =>
      if target !in world then Err(InvalidAddress(target)) else
      Ok(ActionParams(target, tx.sender, tx.sender, tx.gas, tx.value, world[target].code, tx.args))
  }

  /** The wasm gas limit; 256-bit overflow panics and a limit beyond 64 bits is an error. */
  function GasLimitFor(gas: U256): Result<u64> {
    if gas * OPCODES_DIV >= U256_LIMIT then Err(HostPanic)
    else if ToWasmGas(gas) >= U64_LIMIT then Err(Wasm)
    else Ok(ToWasmGas(gas))
  }

  function Prepare(world: World, tx: Transaction, host: Host): Result<Prepared> {
    match ParamsFor(world, tx, host)
    case Err(e) => Err(e)
    case Ok(params) =>
      match host.load(params.code)
      case None => Err(Wasm)
      case Some(loaded) =>
        match GasLimitFor(params.gas)
        case Err(e) => Err(e)
        case Ok(limit) => Ok(Prepared(Env(world, host.blocks, params, limit), loaded))
  }

  /** The code that `tx` runs: its own for a create, the target's for a call, if there is one. */
  function CodeOf(world: World, tx: Transaction): Option<Bytes> {
    match tx.action
    case Create(code, _) => Some(code)
    case Call(a) => if a in world then Some(world[a].code) else None
  }

  /** What the contract gets to see of `tx`. */
  predicate Conveyed(tx: Transaction, target: Address, code: Bytes, params: ActionParams) {
    && params.address == target && params.sender == tx.sender && params.origin == tx.sender
    && params.value == tx.value && params.args == tx.args && params.code == code
  }

  /** A transaction is prepared to run its code on its own data exactly if there is code, it loads, and eight
      thirds of the gas supplied fit 64 bits; each of these has its own error. */
  lemma PreparedExactly(world: World, tx: Transaction, host: Host)
    ensures match CodeOf(world, tx)
      case None => Prepare(world, tx, host) == Err(InvalidAddress(tx.action.address))
      case Some(code) =>
        var prepared := Prepare(world, tx, host);
        if host.load(code).None? then prepared == Err(Wasm)
        else if tx.gas * 8 >= 0x1_0000000000000000_0000000000000000_0000000000000000_0000000000000000
        then prepared == Err(HostPanic)
        else if tx.gas * 8 / 3 >= 0x1_0000_0000_0000_0000 then prepared == Err(Wasm)
        else
          && prepared.Ok?
          && host.load(code) == Some(prepared.value.loaded)
          && prepared.value.env.world == world && prepared.value.env.blocks == host.blocks
          && prepared.value.env.gasLimit == tx.gas * 8 / 3
          && Conveyed(tx, TargetOf(tx, host), code, prepared.value.env.params)
  {
  }

  /** A call targets the address it names; a create the low-order twenty bytes of the hash of 0xff, sender,
      salt and the hash of the code. */
  lemma TargetExactly(tx: Transaction, host: Host)
    ensures match tx.action
      case Call(a) => TargetOf(tx, host) == a
      case Create(code, salt) =>
        forall i | 0 <= i < 20 ::
          TargetOf(tx, host)[i] == host.keccak([0xff] + tx.sender + salt + host.keccak(code))[12 + i]
  {
    if tx.action.Create? {
      var preimage := AddressPreimage(tx.sender, tx.action.salt, host.keccak(tx.action.code));
      AddressLayout(tx.sender, tx.action.salt, host.keccak(tx.action.code));
      assert preimage == [0xff] + tx.sender + tx.action.salt + host.keccak(tx.action.code);
      forall i | 0 <= i < 20 ensures TargetOf(tx, host)[i] == host.keccak(preimage)[12 + i] {
        TruncateAt(host.keccak(preimage), i);
      }
    }
  }

  function TrapError(kind: TrapKind): Error {
    match kind
    case UnreachableTrap => Unreachable
    case MemoryAccessTrap => MemoryAccessViolation
    case TableAccessTrap => InvalidVirtualCall
    case DivisionTrap => DivisionByZero
    case ConversionTrap => InvalidConversionToInt
    case SignatureTrap => InvalidVirtualCall
    case StackTrap => StackOverflow
  }

  /** Anything but a normal end of the start function fails the transaction. */
  function StartError(ending: Ending): Error {
    match ending
    case Trapped(kind) => TrapError(kind)
    case Stopped(e) => if e == HostPanic then HostPanic else Other
    case _ => Other
  }

  /** The failure of the exported `call`; a panic unwinds as it is. */
  function CallError(ending: Ending): Error {
    if ending == Stopped(HostPanic) then HostPanic else Wasm
  }

  /** The endings of the exported `call` that are not failures: a normal end, a trap the machine
      raised itself, and the two host errors that mean success. */
  predicate Accepted(ending: Ending) {
    match ending
    case Finished => true
    case Trapped(_) => true
    case Stopped(e) => e == Return || e == Suicide
    case Cut => false
  }

  function StartRun(p: Prepared, m: Machine): Run {
    RunFrom(StepOf(p.env), p.loaded.start, m, [], StepBound(p.env.gasLimit))
  }

  function CallRun(p: Prepared, s: Strategy, m: Machine): Run {
    RunFrom(StepOf(p.env), s, m, [], StepBound(p.env.gasLimit))
  }

  function FreshMachine(storage: Storage): Machine {
    Machine(FRESH_CORE, storage)
  }

  /** The machine before the start function: only the initial memory has been paid for. */
  function InitialMachine(p: Prepared, storage: Storage): Option<Machine> {
    Paid(p.env, FreshMachine(storage), Raw(p.loaded.pages * INITIAL_MEM))
  }

  /** From the end of the start function to the end of the exported `call`. */
  function CallPhase(p: Prepared, started: Run): Result<Machine> {
    match p.loaded.entry(started.history)
    case None => Ok(started.machine)
    case Some(s) =>
      var called := CallRun(p, s, started.machine);
      if Accepted(called.ending) then Ok(called.machine) else Err(CallError(called.ending))
  }

  /** The machine when the contract has run, if the transaction has not failed by then. */
  function Session(p: Prepared, storage: Storage): Result<Machine> {
    match InitialMachine(p, storage)
    case None => Err(GasLimit)
    case Some(m) =>
      var started := StartRun(p, m);
      if started.ending != Finished then Err(StartError(started.ending)) else CallPhase(p, started)
  }

  /** The answer, unless the gas left cannot be determined, which the code expects never to happen. */
  function Answered(p: Prepared, m: Machine): Result<ResultData> {
    match LeftOver(p.env, m)
    case Err(_) => Err(HostPanic)
    case Ok(left) => Ok(ResultData(FromWasmGas(left), m.core.result, p.env.params.address, []))
  }

  /** The chain and the answer after a transaction. */
  datatype Outcome = Outcome(world: World, result: Result<ResultData>)

  /** The cache as it is flushed: for a create, the result becomes the code of the new contract. */
  function EntriesToFlush(entries: Entries, world: World, tx: Transaction, a: Address, data: Bytes): Entries {
    if tx.action.Create? then WithCode(entries, world, a, data) else entries
  }

  function ToFlush(world: World, tx: Transaction, p: Prepared, m: Machine): Entries {
    match m.storage
    case Cached(entries) => EntriesToFlush(entries, world, tx, p.env.params.address, m.core.result)
    case Direct(_) => map[]
  }

  /** The chain after a session: unchanged if the result is empty, else flushed. */
  function SettledWorld(p: Prepared, tx: Transaction, m: Machine): World {
    if m.core.result == [] then p.env.world else Flushed(p.env.world, ToFlush(p.env.world, tx, p, m))
  }

  /** A result to commit needs a new account, and the chain has no number left for one. */
  predicate Blocked(world: World, tx: Transaction, host: Host, data: Bytes) {
    data != [] && tx.action.Create? && TargetOf(tx, host) !in world && host.counter >= MAX_COUNTER
  }

  /** The outcome of a session, `after` being the chain it leads to. */
  function Concluded(world: World, tx: Transaction, host: Host, p: Prepared, m: Machine, after: World): Outcome {
    if Answered(p, m).Err? then Outcome(world, Answered(p, m))
    else if Blocked(world, tx, host, m.core.result) then Outcome(world, Err(HostPanic))
    else Outcome(after, Answered(p, m))
  }

  function ExecuteSpec(world: World, tx: Transaction, host: Host): Outcome {
    match Prepare(world, tx, host)
    case Err(e) => Outcome(world, Err(e))
    case Ok(p) =>
      match Session(p, Cached(map[]))
      case Err(e) => Outcome(world, Err(e))
      case Ok(m) => Concluded(world, tx, host, p, m, SettledWorld(p, tx, m))
  }

  function SlotsIn(storage: Storage): Slots {
    if storage.Direct? then storage.slots else map[]
  }

  /** Publishing a snapshot: the slots, and for a create the code. */
  function Published(world: World, tx: Transaction, p: Prepared, m: Machine): World {
    var a := p.env.params.address;
    var base := if a in world then world[a] else Record(0, 0, [], map[]);
    var stored := base.(storage := SlotsIn(m.storage));
    world[a := if tx.action.Create? then stored.(code := m.core.result) else stored]
  }

  /** The chain after a session over a snapshot. */
  function PublishedWorld(world: World, tx: Transaction, p: Prepared, m: Machine): World {
    if m.core.result == [] then world else Published(world, tx, p, m)
  }

  /** The reference: the same contract over a snapshot and against its true balance, published only on
      a non-empty result. */
  function Reference(world: World, tx: Transaction, host: Host): Outcome {
    match Prepare(world, tx, host)
    case Err(e) => Outcome(world, Err(e))
    case Ok(p) =>
      match Session(p, Direct(StorageOf(world, p.env.params.address)))
      case Err(e) => Outcome(world, Err(e))
      case Ok(m) => Concluded(world, tx, host, p, m, PublishedWorld(world, tx, p, m))
  }

  // ----- the cache at the end of a session -----

  lemma FreshHealthy(env: Env)
    ensures Healthy(env, FreshMachine(Cached(map[])))
    ensures Same(env, FreshMachine(Cached(map[])), FreshMachine(Direct(StorageOf(env.world, env.params.address))))
  {
  }

  lemma PaidHealthy(env: Env, m: Machine, charge: Charge)
    requires Healthy(env, m) && Paid(env, m, charge).Some?
    ensures Healthy(env, Paid(env, m, charge).value)
  {
  }

  lemma SessionHealthy(p: Prepared)
    requires Session(p, Cached(map[])).Ok?
    ensures Healthy(p.env, Session(p, Cached(map[])).value)
  {
    FreshHealthy(p.env);
    PaidHealthy(p.env, FreshMachine(Cached(map[])), Raw(p.loaded.pages * INITIAL_MEM));
    var m := InitialMachine(p, Cached(map[])).value;
    RunHealthy(p.env, p.loaded.start, m, [], StepBound(p.env.gasLimit));
    var started := StartRun(p, m);
    match p.loaded.entry(started.history)
    case None =>
    case Some(s) => RunHealthy(p.env, s, started.machine, [], StepBound(p.env.gasLimit));
  }

  lemma SessionLedger(p: Prepared, storage: Storage)
    requires Session(p, storage).Ok?
    ensures LedgerHolds(p.env, Session(p, storage).value)
  {
    PaidLedger(p.env, FreshMachine(storage), Raw(p.loaded.pages * INITIAL_MEM));
    var m := InitialMachine(p, storage).value;
    RunLedger(p.env, p.loaded.start, m, [], StepBound(p.env.gasLimit));
    var started := StartRun(p, m);
    match p.loaded.entry(started.history)
    case None =>
    case Some(s) => RunLedger(p.env, s, started.machine, [], StepBound(p.env.gasLimit));
  }

  /** Over either storage a session ends with at most the limit used up, so the gas left can always be
      determined: it is the limit less what was charged. */
  lemma GasLeftNeverFails(p: Prepared, storage: Storage)
    requires Session(p, storage).Ok?
    ensures var m := Session(p, storage).value;
      LeftOver(p.env, m) == Ok(p.env.gasLimit - Total(m.core.charges)) && Answered(p, m).Ok?
  {
    SessionLedger(p, storage);
  }

  /** The flush writes only to an account that exists or that the flush itself creates first. */
  lemma FlushNeverFails(world: World, tx: Transaction, host: Host)
    requires Prepare(world, tx, host).Ok? && Session(Prepare(world, tx, host).value, Cached(map[])).Ok?
    ensures var p := Prepare(world, tx, host).value;
      AllFlushable(world, ToFlush(world, tx, p, Session(p, Cached(map[])).value))
  {
    SessionHealthy(Prepare(world, tx, host).value);
  }

  /** At most the running contract is cached, and not marked for creation. */
  predicate OnlyTarget(entries: Entries, a: Address) {
    entries.Keys <= {a} && (a in entries ==> !entries[a].dirty)
  }

  /** A flush creates the target of a create that is not there yet, and nothing else. */
  lemma FlushCreates(world: World, entries: Entries, tx: Transaction, a: Address, data: Bytes)
    requires OnlyTarget(entries, a)
    ensures var flushing, created := EntriesToFlush(entries, world, tx, a, data), tx.action.Create? && a !in world;
      && Creations(world, flushing, flushing.Keys) == (if created then {a} else {})
      && |Creations(world, flushing, flushing.Keys)| == (if created then 1 else 0)
      && flushing.Keys <= {a}
  {
  }

  lemma FlushedKeys(world: World, cache: Entries)
    ensures Flushed(world, cache).Keys - world.Keys == Creations(world, cache, cache.Keys)
  {
  }

  // ----- the imperative form -----

  /** Drives the contract against the runtime until a call fails or the contract ends. */
  method RunContract(runtime: Runtime, s: Strategy, steps: nat) returns (ending: Ending, history: History)
    requires runtime.Valid() && |runtime.params.args| < U64_LIMIT
    modifies runtime, runtime.state
    ensures runtime.Valid()
    ensures Run(runtime.Here(), ending, history) == RunFrom(StepOf(runtime.TheEnv()), s, old(runtime.Here()), [], steps)
  {
    history := [];
    var left := steps;
    ghost var env, before := runtime.TheEnv(), runtime.Here();
    while true
      invariant runtime.Valid() && runtime.TheEnv() == env
      invariant RunFrom(StepOf(env), s, before, [], steps) == RunFrom(StepOf(env), s, runtime.Here(), history, left)
      decreases left
    {
      match s(history) {
        case Finish => return Finished, history;
        case Trap(kind) => return Trapped(kind), history;
        case Invoke(memory, call) =>
          if left == 0 {
            return Cut, history;
          }
          ghost var m := WithMemory(runtime.Here(), memory);
          runtime.memory := memory;
          assert runtime.Here() == m;
          var r := runtime.InvokeIndex(call);
          assert StepOf(env)(m, call) == StepResult(runtime.Here(), r);
          match r {
            case Err(e) => return Stopped(e), history;
            case Ok(value) =>
              history := history + [Reply(value, runtime.memory)];
              left := left - 1;
          }
      }
    }
  }

  method BuildParams(provider: Blockchain, tx: Transaction, keccak: Hasher, ghost host: Host)
    returns (r: Result<ActionParams>)
    requires provider.Valid() && host.keccak == keccak
    ensures r == ParamsFor(provider.TheWorld(), tx, host)
  {
    match tx.action {
      case Create(code, salt) =>
        var newAddress := ContractAddress(keccak, tx.sender, code, salt);
        r := Ok(ActionParams(newAddress, tx.sender, tx.sender, tx.gas, tx.value, code, tx.args));
      case Call(address) =>
        var acc := provider.GetAccount(address);
        if acc.Err? { return Err(acc.error); }
        r := Ok(ActionParams(address, tx.sender, tx.sender, tx.gas, tx.value, acc.value.code, tx.args));
    }
  }

  datatype Loaded = Loaded(params: ActionParams, code: Module, gasLimit: u64)

  /** What `provider` and the foreign parts amount to when a transaction starts. */
  ghost predicate Meets(host: Host, provider: Blockchain, keccak: Hasher, load: Bytes -> Option<Module>)
    reads provider
    requires provider.Valid()
  {
    host == Host(keccak, load, provider.TheBlocks(), provider.counter)
  }

  /** Everything up to the first step of the contract. */
  method LoadContract(provider: Blockchain, tx: Transaction, keccak: Hasher, load: Bytes -> Option<Module>,
                      ghost host: Host)
    returns (r: Result<Loaded>)
    requires provider.Valid() && Meets(host, provider, keccak, load)
    ensures Prepare(provider.TheWorld(), tx, host) ==
      match r
      case Ok(l) => Ok(Prepared(Env(provider.TheWorld(), provider.TheBlocks(), l.params, l.gasLimit), l.code))
      case Err(e) => Err(e)
    ensures r.Ok? ==> r.value.params.args == tx.args
  {
    var params := BuildParams(provider, tx, keccak, host);
    if params.Err? { return Err(params.error); }
    var code := load(params.value.code);
    if code.None? { return Err(Wasm); }
    var limit := GasLimitFor(params.value.gas);
    if limit.Err? { return Err(limit.error); }
    return Ok(Loaded(params.value, code.value, limit.value));
  }

  /** Runs the start function and then the exported `call`. */
  method RunModule(runtime: Runtime, loaded: Module) returns (failure: Option<Error>)
    requires runtime.Valid() && |runtime.params.args| < U64_LIMIT
    requires runtime.Here() == FreshMachine(Cached(map[]))
    modifies runtime, runtime.state
    ensures runtime.Valid()
    ensures Session(Prepared(runtime.TheEnv(), loaded), Cached(map[]))
         == match failure case None => Ok(runtime.Here()) case Some(e) => Err(e)
  {
    var ok := runtime.ChargeRaw(loaded.pages * INITIAL_MEM);
    if !ok { return Some(GasLimit); }
    var ending, history := RunContract(runtime, loaded.start, StepBound(runtime.gasLimit));
    if ending != Finished { return Some(StartError(ending)); }
    match loaded.entry(history) {
      case None => return None;
      case Some(s) =>
        ending, history := RunContract(runtime, s, StepBound(runtime.gasLimit));
        if !Accepted(ending) { return Some(CallError(ending)); }
        return None;
    }
  }

  /** Sets the code of a new contract and flushes; fails, with nothing written, when a new account is
      needed and there is no number for it. */
  method Publish(state: State, tx: Transaction, a: Address, data: Bytes) returns (r: Result<()>)
    requires state.Valid() && OnlyTarget(state.accounts, a)
    requires AllFlushable(state.TheWorld(), EntriesToFlush(state.accounts, state.TheWorld(), tx, a, data))
    modifies state, state.provider`accounts, state.provider`counter
    ensures state.Valid() && Written(old(state.provider.TheLedger()), state.provider.TheLedger())
    ensures var created := tx.action.Create? && a !in old(state.TheWorld());
      && r == (if created && old(state.provider.counter) >= MAX_COUNTER then Err(HostPanic) else Ok(()))
      && (r.Ok? ==> state.provider.counter == old(state.provider.counter) + if created then 1 else 0)
    ensures var flushing := EntriesToFlush(old(state.accounts), old(state.TheWorld()), tx, a, data);
      r.Ok? ==> state.TheWorld() == Flushed(old(state.TheWorld()), flushing)
    ensures r.Err? ==> state.provider.TheLedger() == old(state.provider.TheLedger())
  {
    FlushCreates(state.TheWorld(), state.accounts, tx, a, data);
    if tx.action.Create? {
      state.InitCode(a, data);
    }
    r := state.UpdateState();
  }

  lemma SettledKeys(p: Prepared, tx: Transaction, m: Machine)
    requires m.storage.Cached? && OnlyTarget(m.storage.entries, p.env.params.address)
    ensures SettledWorld(p, tx, m).Keys <= p.env.world.Keys + {p.env.params.address}
  {
    var a, data := p.env.params.address, m.core.result;
    FlushCreates(p.env.world, m.storage.entries, tx, a, data);
    FlushedKeys(p.env.world, EntriesToFlush(m.storage.entries, p.env.world, tx, a, data));
  }

  /** The ledger after a transaction for `a`: made by guarded calls, `a` under the next alias if it is
      new, all other accounts in their places, and nothing written at all without a result to commit. */
  ghost predicate Transacted(before: Ledger, after: Ledger, a: Address, r: Result<ResultData>) {
    && Written(before, after)
    && Placed(before, ByAddress(after.accounts), a, after)
    && (r.Err? || r.value.data == [] ==> after == before)
  }

  lemma NothingWritten(ledger: Ledger, a: Address)
    requires WellFormed(ledger)
    ensures forall r :: Transacted(ledger, ledger, a, r)
  {
    WrittenNothing(ledger);
    PlacedExactly(ledger, ledger, a);
  }

  lemma Committed(before: Ledger, after: Ledger, a: Address, r: Result<ResultData>)
    requires WellFormed(before) && Written(before, after) && r.Ok? && r.value.data != []
    requires ByAddress(after.accounts).Keys <= ByAddress(before.accounts).Keys + {a}
    ensures Transacted(before, after, a, r)
  {
    ByAddressKeys(before.accounts);
    ByAddressKeys(after.accounts);
    PlacedExactly(before, after, a);
  }

  /** Converts the gas left back and, unless the result is empty, publishes the run. */
  method Settle(runtime: Runtime, tx: Transaction, ghost p: Prepared, ghost host: Host)
    returns (r: Result<ResultData>)
    requires runtime.Valid() && p.env == runtime.TheEnv()
    requires p.env.params.address == TargetOf(tx, host) && host.counter == runtime.state.provider.counter
    requires OnlyTarget(runtime.state.accounts, p.env.params.address)
    requires AllFlushable(p.env.world, ToFlush(p.env.world, tx, p, runtime.Here()))
    modifies runtime.state, runtime.state.provider`accounts, runtime.state.provider`counter
    ensures runtime.Valid()
    ensures Transacted(old(runtime.state.provider.TheLedger()), runtime.state.provider.TheLedger(),
                       p.env.params.address, r)
    ensures var m := old(runtime.Here());
      Outcome(runtime.state.TheWorld(), r) == Concluded(p.env.world, tx, host, p, m, SettledWorld(p, tx, m))
  {
    ghost var before := runtime.state.provider.TheLedger();
    SettledKeys(p, tx, runtime.Here());
    NothingWritten(before, p.env.params.address);
    var gasLeft := runtime.GasLeft();
    if gasLeft.Err? { return Err(HostPanic); }
    var data := runtime.result;
    r := Ok(ResultData(gasLeft.value * OPCODES_MUL / OPCODES_DIV, data, runtime.params.address, []));
    if data == [] {
      return;
    }
    var flushed := Publish(runtime.state, tx, runtime.params.address, data);
    if flushed.Err? {
      return Err(flushed.error);
    }
    Committed(before, runtime.state.provider.TheLedger(), p.env.params.address, r);
  }

  lemma SessionSettles(world: World, tx: Transaction, host: Host, p: Prepared, m: Machine)
    requires Prepare(world, tx, host) == Ok(p) && Session(p, Cached(map[])) == Ok(m)
    ensures p.env.world == world && p.env.params.address == TargetOf(tx, host)
    ensures m.storage.Cached? && OnlyTarget(m.storage.entries, p.env.params.address)
    ensures AllFlushable(world, ToFlush(world, tx, p, m))
    ensures ExecuteSpec(world, tx, host) == Concluded(world, tx, host, p, m, SettledWorld(p, tx, m))
  {
    FlushNeverFails(world, tx, host);
    SessionHealthy(p);
  }

  /** Creates the cache and the runtime, runs the contract and settles. */
  method RunLoaded(provider: Blockchain, tx: Transaction, loaded: Loaded, ghost p: Prepared, ghost host: Host)
    returns (r: Result<ResultData>)
    requires provider.Valid() && |loaded.params.args| < U64_LIMIT
    requires p == Prepared(Env(provider.TheWorld(), provider.TheBlocks(), loaded.params, loaded.gasLimit), loaded.code)
    requires Prepare(provider.TheWorld(), tx, host) == Ok(p) && host.counter == provider.counter
    modifies provider`accounts, provider`counter
    ensures provider.Valid() && Transacted(old(provider.TheLedger()), provider.TheLedger(), TargetOf(tx, host), r)
    ensures Outcome(provider.TheWorld(), r) == ExecuteSpec(old(provider.TheWorld()), tx, host)
  {
    NothingWritten(provider.TheLedger(), TargetOf(tx, host));
    var state := new State(provider);
    var runtime := new Runtime(loaded.params, state, loaded.gasLimit);
    var failure := RunModule(runtime, loaded.code);
    if failure.Some? { return Err(failure.value); }
    SessionSettles(provider.TheWorld(), tx, host, p, runtime.Here());
    r := Settle(runtime, tx, p, host);
  }

  /** Executes `tx` against the chain. A vector's length is a 64-bit number. */
  method Execute(provider: Blockchain, tx: Transaction, keccak: Hasher, load: Bytes -> Option<Module>)
    returns (r: Result<ResultData>)
    requires provider.Valid() && |tx.args| < U64_LIMIT
    modifies provider`accounts, provider`counter
    ensures provider.Valid()
    ensures var host := Host(keccak, load, old(provider.TheBlocks()), old(provider.counter));
      && Outcome(provider.TheWorld(), r) == ExecuteSpec(old(provider.TheWorld()), tx, host)
      && Transacted(old(provider.TheLedger()), provider.TheLedger(), TargetOf(tx, host), r)
  {
    ghost var host := Host(keccak, load, provider.TheBlocks(), provider.counter);
    ghost var world, blocks := provider.TheWorld(), provider.TheBlocks();
    NothingWritten(provider.TheLedger(), TargetOf(tx, host));
    var loading := LoadContract(provider, tx, keccak, load, host);
    if loading.Err? { return Err(loading.error); }
    var loaded := loading.value;
    r := RunLoaded(provider, tx, loaded,
                   Prepared(Env(world, blocks, loaded.params, loaded.gasLimit), loaded.code), host);
  }
}
