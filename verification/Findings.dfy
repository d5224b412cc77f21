/** Concrete inputs on which the code departs from what is said about it. The contracts are realizable:
    they have the memory they use, and pay for it and for their calls. */
module Findings {
  import opened Types
  import opened HostMachine
  import opened Refinement
  import opened Runs
  import opened Execution
  import opened Realizability
  import opened Witnesses
  import opened Theorems

  /** Gas for a page, a thousand units of instructions, and any host call. */
  const GAS: U256 := 100000

  /** A chain with the genesis block only, and a hash function that maps everything to zero. */
  function ExampleHost(): Host {
    Host(_ => ZERO_HASH, _ => None, BlockInfo([ZERO_HASH], Zeros(20)), 0)
  }

  function ExampleTarget(): Address {
    TargetOf(Creating(), ExampleHost())
  }

  function Creating(): Transaction {
    Transaction(Zeros(20), 0, GAS, 0, Types.Create([], ZERO_HASH), [])
  }

  function Calling(): Transaction {
    Transaction(Zeros(20), 0, GAS, 0, Types.Call(ExampleTarget()), [])
  }

  /** One account, at the example target. */
  function WorldWith(record: Record): World {
    map[ExampleTarget() := record]
  }

  /** Loading `loaded`, what a transaction of the example leaves. */
  function Executing(world: World, tx: Transaction, loaded: Module): Outcome {
    ExecuteSpec(world, tx, With(ExampleHost(), loaded))
  }

  function Referring(world: World, tx: Transaction, loaded: Module): Outcome {
    Reference(world, tx, With(ExampleHost(), loaded))
  }

  lemma ExamplePrepared(world: World, tx: Transaction, loaded: Module) returns (p: Prepared)
    requires tx == Creating() || (tx == Calling() && ExampleTarget() in world)
    ensures Prepare(world, tx, With(ExampleHost(), loaded)) == Ok(p)
    ensures p.loaded == loaded && p.env.world == world && p.env.params.address == ExampleTarget()
    ensures p.env.gasLimit == 266666 && p.env.blocks == ExampleHost().blocks
  {
    assert GasLimitFor(GAS) == Ok(266666);
    PreparedWith(world, tx, ExampleHost(), loaded);
    p := Prepare(world, tx, With(ExampleHost(), loaded)).value;
  }

  // ----- creating over an existing account -----

  lemma RedeployRuns() returns (p: Prepared, m: Machine)
    ensures Ran(WorldWith(Record(0, 5, [9], map[])), Creating(), With(ExampleHost(), Returns(1000, 1)), p, m)
    ensures m.core.result == [1] && m.storage == Cached(map[])
  {
    p, m := ReturnsCommit(WorldWith(Record(0, 5, [9], map[])), Creating(), ExampleHost(), 1000, 1);
  }

  lemma SameTarget(loaded: Module)
    ensures TargetOf(Creating(), With(ExampleHost(), loaded)) == ExampleTarget()
  {
  }

  lemma WorldReplaced(before: Record, after: Record)
    ensures ExampleTarget() in WorldWith(before) && WorldWith(before)[ExampleTarget()] == before
    ensures WorldWith(before)[ExampleTarget() := after] == WorldWith(after)
  {
  }

  /** Deploying the same code with the same salt again succeeds, yet keeps the old code and turns an
      account with nonce 0 and balance 5 into one with nonce 5 and balance 0. */
  lemma RedeployExchangesFunds()
    ensures Realizable(Returns(1000, 1))
    ensures var after := Executing(WorldWith(Record(0, 5, [9], map[])), Creating(), Returns(1000, 1));
      && after.result.Ok? && after.result.value.data == [1]
      && after.world == WorldWith(Record(5, 0, [9], map[]))
  {
    OneCallCovered(1000, Ret(0, 1));
    PayingRealizable(1, 1000, [Ret(0, 1)], Page([1]), Finish);
    SameTarget(Returns(1000, 1));
    WorldReplaced(Record(0, 5, [9], map[]), Record(5, 0, [9], map[]));
    var p, m := RedeployRuns();
    RedeployOutcome(WorldWith(Record(0, 5, [9], map[])), Creating(), With(ExampleHost(), Returns(1000, 1)), p, m);
  }

  // ----- comparing with the nonce -----

  /** Of an account that does not exist the cache has the balance 1. */
  lemma NobodysBalance(env: Env, slots: Slots)
    requires env.world == map[]
    ensures OwnBalance(env, Cached(map[])) == 1 && OwnBalance(env, Direct(slots)) == 0
  {
  }

  lemma DeployFails(p: Prepared)
    requires Prepare(map[], Creating(), With(ExampleHost(), TransfersThenReturns(1000, 1))) == Ok(p)
    requires p.loaded == TransfersThenReturns(1000, 1) && p.env.gasLimit == 266666 && p.env.world == map[]
    ensures Executing(map[], Creating(), TransfersThenReturns(1000, 1)).result == Err(Wasm)
  {
    NobodysBalance(p.env, map[]);
    TransfersCommit(p, 1000, 1, Cached(map[]));
    EmptySessionDecides(map[], Creating(), With(ExampleHost(), TransfersThenReturns(1000, 1)), p);
  }

  lemma DeployShouldSucceed(p: Prepared)
    requires Prepare(map[], Creating(), With(ExampleHost(), TransfersThenReturns(1000, 1))) == Ok(p)
    requires p.loaded == TransfersThenReturns(1000, 1) && p.env.gasLimit == 266666 && p.env.world == map[]
    ensures var honest := Referring(map[], Creating(), TransfersThenReturns(1000, 1));
      honest.result.Ok? && honest.result.value.data == [1]
  {
    NobodysBalance(p.env, StorageOf(p.env.world, p.env.params.address));
    TransfersCommit(p, 1000, 1, Snapshot(p));
    var n := Session(p, Snapshot(p)).value;
    ReferenceOutcome(map[], Creating(), With(ExampleHost(), TransfersThenReturns(1000, 1)), p, n);
  }

  /** A new contract has no balance, so a transfer of one unit should be refused, which this contract
      would survive; the code compares with 1, goes on with the transfer and fails the transaction. */
  lemma TransferComparesNonce()
    ensures Realizable(TransfersThenReturns(1000, 1))
    ensures Executing(map[], Creating(), TransfersThenReturns(1000, 1)).result == Err(Wasm)
    ensures var honest := Referring(map[], Creating(), TransfersThenReturns(1000, 1));
      honest.result.Ok? && honest.result.value.data == [1]
  {
    TransferAndReturnCovered(1000);
    PayingRealizable(1, 1000, [TRANSFER, Ret(52, 1)], TransferMemory(1), Finish);
    var p := ExamplePrepared(map[], Creating(), TransfersThenReturns(1000, 1));
    DeployFails(p);
    DeployShouldSucceed(p);
  }

  // ----- success without effect -----

  function OneWord(): H256 {
    seq(32, _ => 1)
  }

  function WordsMemory(): Bytes {
    Page(OneWord() + OneWord())
  }

  /** Writes the word at 32 to the slot named by the word at 0, and ends without a result. */
  function WritesOnce(): Module {
    Paying(1, 1000, [StorageWrite(0, 32)], WordsMemory(), Finish)
  }

  /** A contract that writes a slot and ends normally is reported as a success, and the write is lost. */
  lemma SuccessLosesWrite()
    ensures Realizable(WritesOnce())
    ensures var world, host := WorldWith(Record(0, 0, [], map[])), With(ExampleHost(), WritesOnce());
      exists p, m :: Ran(world, Calling(), host, p, m)
        && FinalSlots(p, m) == map[OneWord() := OneWord()]
        && ExecuteSpec(world, Calling(), host).result.Ok?
        && ExecuteSpec(world, Calling(), host).world == world
  {
    OneCallCovered(1000, StorageWrite(0, 32));
    PayingRealizable(1, 1000, [StorageWrite(0, 32)], WordsMemory(), Finish);
    var world, host := WorldWith(Record(0, 0, [], map[])), With(ExampleHost(), WritesOnce());
    var p := ExamplePrepared(world, Calling(), WritesOnce());
    var m := WriteSession(p);
    assert Ran(world, Calling(), host, p, m);
    RanOutcome(world, Calling(), host, p, m);
  }

  lemma WriteSession(p: Prepared) returns (m: Machine)
    requires p.loaded == WritesOnce() && p.env.gasLimit == 266666
    requires p.env.world == map[p.env.params.address := Record(0, 0, [], map[])]
    ensures Session(p, Cached(map[])) == Ok(m)
    ensures m.core.result == [] && FinalSlots(p, m) == map[OneWord() := OneWord()]
  {
    PayingSession(p, 1, 1000, [StorageWrite(0, 32)], WordsMemory(), Finish, Cached(map[]));
    m := FirstWrite(p);
  }

  lemma WordsRead()
    ensures Slice(WordsMemory(), 0, 32) == OneWord() && Slice(WordsMemory(), 32, 32) == OneWord()
    ensures OneWord() != ZERO_HASH
  {
    var words: Bytes := OneWord() + OneWord();
    assert WordsMemory()[..64] == words;
    assert WordsMemory()[0..32] == words[0..32] && WordsMemory()[32..64] == words[32..64];
    assert OneWord()[0] != ZERO_HASH[0];
  }

  lemma FirstWrite(p: Prepared) returns (m: Machine)
    requires p.env.gasLimit == 266666
    requires p.env.world == map[p.env.params.address := Record(0, 0, [], map[])]
    ensures Step(p.env, Ready(1, 1000, WordsMemory(), Cached(map[])), StorageWrite(0, 32)) == StepResult(m, Ok(None))
    ensures m.core.result == [] && m.storage.Cached?
    ensures FinalSlots(p, m) == map[OneWord() := OneWord()]
  {
    WordsRead();
    m := Step(p.env, Ready(1, 1000, WordsMemory(), Cached(map[])), StorageWrite(0, 32)).machine;
    assert Pending(p.env, m.storage.entries) == map[OneWord() := OneWord()];
  }

  // ----- success in spite of a failure -----

  /** Pays one unit and runs into `unreachable`. */
  function Traps(): Module {
    Paying(0, 1, [], [], Trap(UnreachableTrap))
  }

  /** A contract that traps at once is reported as a success with an empty result, whenever there is gas
      for the instruction that traps. */
  lemma TrapIsSuccess(world: World, tx: Transaction)
    requires !FailsBeforeRun(world, tx, ExampleHost()) && tx.gas > 0
    ensures Realizable(Traps())
    ensures var after := Executing(world, tx, Traps());
      after.result.Ok? && after.result.value.data == [] && after.world == world
  {
    PayingRealizable(0, 1, [], [], Trap(UnreachableTrap));
    PreparedWith(world, tx, ExampleHost(), Traps());
    var p := Prepare(world, tx, With(ExampleHost(), Traps())).value;
    PayingSession(p, 0, 1, [], [], Trap(UnreachableTrap), Cached(map[]));
    EmptySessionDecides(world, tx, With(ExampleHost(), Traps()), p);
    AllOrNothing(world, tx, With(ExampleHost(), Traps()));
  }

  /** A module without memory, start function and `call`. */
  function Empty(): Module {
    Module(0, _ => Finish, _ => None)
  }

  /** Code that exports no `call` at all is reported as a success, too. */
  lemma MissingCallIsSuccess(world: World, tx: Transaction)
    requires !FailsBeforeRun(world, tx, ExampleHost())
    ensures Realizable(Empty())
    ensures var after := Executing(world, tx, Empty());
      after.result.Ok? && after.result.value.data == [] && after.world == world
  {
    forall h ensures Issued(Empty().start, h) == [] {
      SilentIssues(Empty().start, h);
    }
    PreparedWith(world, tx, ExampleHost(), Empty());
    var p := Prepare(world, tx, With(ExampleHost(), Empty())).value;
    var m := InitialMachine(p, Cached(map[])).value;
    assert StartRun(p, m) == Run(m, Finished, []);
    EmptySessionDecides(world, tx, With(ExampleHost(), Empty()), p);
    AllOrNothing(world, tx, With(ExampleHost(), Empty()));
  }

  // ----- panics -----

  /** Pays, and makes one host call. */
  function Calls(call: HostCall): Module {
    Paying(1, 1000, [call], Page([]), Finish)
  }

  lemma PanicStep(env: Env, m: Machine, call: HostCall)
    requires call == Ask(Dcall) || call == Ask(Scall)
             || (call == BlockHash(1, 0) && |env.blocks.hashes| == 1 && m.core.gasCounter + 53 <= env.gasLimit)
    ensures Step(env, m, call).outcome == Err(HostPanic)
  {
  }

  lemma PanicSession(p: Prepared, call: HostCall)
    requires call == Ask(Dcall) || call == Ask(Scall) || (call == BlockHash(1, 0) && |p.env.blocks.hashes| == 1)
    requires p.loaded == Calls(call) && p.env.gasLimit == 266666
    ensures Session(p, Cached(map[])) == Err(HostPanic)
  {
    PayingSession(p, 1, 1000, [call], Page([]), Finish, Cached(map[]));
    PanicStep(p.env, Ready(1, 1000, Page([]), Cached(map[])), call);
  }

  lemma CallPanics(call: HostCall)
    requires call == Ask(Dcall) || call == Ask(Scall) || call == BlockHash(1, 0)
    ensures Realizable(Calls(call)) && Executing(map[], Creating(), Calls(call)).result == Err(HostPanic)
  {
    OneCallCovered(1000, call);
    PayingRealizable(1, 1000, [call], Page([]), Finish);
    var p := ExamplePrepared(map[], Creating(), Calls(call));
    PanicSession(p, call);
    EmptySessionDecides(map[], Creating(), With(ExampleHost(), Calls(call)), p);
  }

  /** A contract that asks for the hash of block 1 of a chain that has block 0 only panics its host. */
  lemma UnknownBlockPanics()
    ensures Realizable(Calls(BlockHash(1, 0)))
    ensures Executing(map[], Creating(), Calls(BlockHash(1, 0))).result == Err(HostPanic)
  {
    CallPanics(BlockHash(1, 0));
  }

  /** `dcall` and `scall` can be imported, but calling either panics the host. */
  lemma UnhandledCallsPanic()
    ensures Realizable(Calls(Ask(Dcall))) && Realizable(Calls(Ask(Scall)))
    ensures Executing(map[], Creating(), Calls(Ask(Dcall))).result == Err(HostPanic)
    ensures Executing(map[], Creating(), Calls(Ask(Scall))).result == Err(HostPanic)
  {
    CallPanics(Ask(Dcall));
    CallPanics(Ask(Scall));
  }
}
