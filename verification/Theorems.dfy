/** What executing a transaction promises about the chain, the result and the gas. */
module Theorems {
  import opened Types
  import opened Cache
  import opened Metering
  import opened HostEffects
  import opened HostMachine
  import opened Refinement
  import opened Runs
  import opened Execution
  import opened Realizability
  import opened Witnesses

  // ----- refinement -----

  function Snapshot(p: Prepared): Storage {
    Direct(StorageOf(p.env.world, p.env.params.address))
  }

  /** No `ccall` of the session tells the stored balance from the true one. */
  ghost predicate UnbiasedSession(p: Prepared) {
    match InitialMachine(p, Snapshot(p))
    case None => true
    case Some(n) =>
      var started := StartRun(p, n);
      && Unbiased(p.env, p.loaded.start, n, [], StepBound(p.env.gasLimit))
      && match p.loaded.entry(started.history)
         case None => true
         case Some(s) => Unbiased(p.env, s, started.machine, [], StepBound(p.env.gasLimit))
  }

  ghost predicate UnbiasedTransaction(world: World, tx: Transaction, host: Host) {
    match Prepare(world, tx, host)
    case Err(_) => true
    case Ok(p) => UnbiasedSession(p)
  }

  /** The cache holds an account's nonce as its balance, so the two must be equal; where there is no
      account it holds 1. */
  predicate Balanced(world: World, a: Address) {
    a in world && world[a].nonce == world[a].balance
  }

  /** Nothing in the module ever makes a `ccall`. */
  ghost predicate NeverTransfers(loaded: Module) {
    && (forall h :: loaded.start(h).Invoke? ==> !loaded.start(h).call.Ccall?)
    && (forall h, g :: loaded.entry(h).Some? && loaded.entry(h).value(g).Invoke? ==>
          !loaded.entry(h).value(g).call.Ccall?)
  }

  lemma SessionUnbiased(p: Prepared)
    requires Balanced(p.env.world, p.env.params.address) || NeverTransfers(p.loaded)
    ensures UnbiasedSession(p)
  {
    match InitialMachine(p, Snapshot(p))
    case None =>
    case Some(n) =>
      UnbiasedWhenBalanced(p.env, p.loaded.start, n, [], StepBound(p.env.gasLimit));
      var started := StartRun(p, n);
      match p.loaded.entry(started.history)
      case None =>
      case Some(s) => UnbiasedWhenBalanced(p.env, s, started.machine, [], StepBound(p.env.gasLimit));
  }

  lemma BalancedIsUnbiased(world: World, tx: Transaction, host: Host)
    requires Balanced(world, TargetOf(tx, host))
    ensures UnbiasedTransaction(world, tx, host)
  {
    match Prepare(world, tx, host)
    case Err(_) =>
    case Ok(p) =>
      CallTargetExists(world, tx, host, p);
      SessionUnbiased(p);
  }

  /** Sessions over the cache and over a snapshot fail alike or end in matching machines. */
  lemma SessionRefines(p: Prepared)
    requires UnbiasedSession(p)
    ensures match (Session(p, Cached(map[])), Session(p, Snapshot(p)))
      case (Ok(m), Ok(n)) => Same(p.env, m, n)
      case (Err(e), Err(f)) => e == f
      case _ => false
  {
    FreshHealthy(p.env);
    if InitialMachine(p, Cached(map[])).Some? {
      var m, n := InitialMachine(p, Cached(map[])).value, InitialMachine(p, Snapshot(p)).value;
      RunRefines(p.env, p.loaded.start, m, n, [], StepBound(p.env.gasLimit));
      var started, started' := StartRun(p, m), StartRun(p, n);
      match p.loaded.entry(started.history)
      case None =>
      case Some(s) => RunRefines(p.env, s, started.machine, started'.machine, [], StepBound(p.env.gasLimit));
    }
  }

  /** The session that `ExecuteSpec` runs, when it succeeds. */
  ghost predicate Ran(world: World, tx: Transaction, host: Host, p: Prepared, m: Machine) {
    && Prepare(world, tx, host) == Ok(p) && Session(p, Cached(map[])) == Ok(m)
    && !Blocked(world, tx, host, m.core.result)
  }

  /** The contract's storage as the run left it. */
  function FinalSlots(p: Prepared, m: Machine): Slots {
    StorageOf(p.env.world, p.env.params.address)
      + if m.storage.Cached? then Pending(p.env, m.storage.entries) else map[]
  }

  /** The record a flush leaves at the target. Creating over an existing account keeps its code and
      exchanges its balance and nonce. */
  function FlushedTarget(world: World, tx: Transaction, a: Address, data: Bytes, slots: Slots): Record
    requires tx.action.Call? ==> a in world
  {
    if tx.action.Call? then world[a].(storage := slots)
    else if a in world then Record(world[a].balance, world[a].nonce, world[a].code, slots)
    else Record(0, 0, data, slots)
  }

  lemma CallTargetExists(world: World, tx: Transaction, host: Host, p: Prepared)
    requires Prepare(world, tx, host) == Ok(p)
    ensures p.env.world == world && p.env.params.address == TargetOf(tx, host)
    ensures tx.action.Call? ==> TargetOf(tx, host) in world
  {
  }

  lemma FlushedEntries(env: Env, entries: Entries, tx: Transaction, data: Bytes)
    requires RunCache(env, entries) && (tx.action.Call? ==> env.params.address in env.world)
    ensures var a := env.params.address;
      Flushed(env.world, EntriesToFlush(entries, env.world, tx, a, data))
      == env.world[a := FlushedTarget(env.world, tx, a, data, StorageOf(env.world, a) + Pending(env, entries))]
  {
    var a, world := env.params.address, env.world;
    var flushing := EntriesToFlush(entries, world, tx, a, data);
    var slots := StorageOf(world, a) + Pending(env, entries);
    assert CleanAccount(entries, world, a);
    if a in flushing {
      assert DirtySlots(flushing[a]) == Pending(env, entries);
      assert FlushedRecord(world, flushing, a) == FlushedTarget(world, tx, a, data, slots);
    } else {
      assert slots == StorageOf(world, a);
      assert world[a := world[a]] == world;
    }
  }

  lemma RanOutcome(world: World, tx: Transaction, host: Host, p: Prepared, m: Machine)
    requires Ran(world, tx, host, p, m)
    ensures LedgerHolds(p.env, m)
    ensures Answered(p, m).Ok? && Answered(p, m).value.data == m.core.result
    ensures ExecuteSpec(world, tx, host) == Outcome(SettledWorld(p, tx, m), Answered(p, m))
  {
    SessionLedger(p, Cached(map[]));
  }

  /** A success comes from a session. */
  lemma SuccessRan(world: World, tx: Transaction, host: Host) returns (p: Prepared, m: Machine)
    requires ExecuteSpec(world, tx, host).result.Ok?
    ensures Ran(world, tx, host, p, m) && m.core.result == ExecuteSpec(world, tx, host).result.value.data
  {
    p := Prepare(world, tx, host).value;
    m := Session(p, Cached(map[])).value;
    GasLeftNeverFails(p, Cached(map[]));
  }

  /** A committed run changes the target's record and nothing else. */
  lemma SettledShape(world: World, tx: Transaction, host: Host, p: Prepared, m: Machine)
    requires Ran(world, tx, host, p, m)
    ensures var a := TargetOf(tx, host);
      && (tx.action.Call? ==> a in world)
      && ExecuteSpec(world, tx, host).world ==
         if m.core.result == [] then world
         else world[a := FlushedTarget(world, tx, a, m.core.result, FinalSlots(p, m))]
  {
    RanOutcome(world, tx, host, p, m);
    CallTargetExists(world, tx, host, p);
    SessionHealthy(p);
    FlushedEntries(p.env, m.storage.entries, tx, m.core.result);
  }

  /** A create whose target exists commits, and its code, balance or nonce show it. */
  ghost predicate Redeploys(world: World, tx: Transaction, host: Host) {
    var a := TargetOf(tx, host);
    && tx.action.Create? && a in world
    && var r := ExecuteSpec(world, tx, host).result;
       r.Ok? && r.value.data != [] && (world[a].code != r.value.data || world[a].balance != world[a].nonce)
  }

  function PublishedTarget(world: World, tx: Transaction, a: Address, data: Bytes, slots: Slots): Record {
    var base := if a in world then world[a] else Record(0, 0, [], map[]);
    if tx.action.Create? then base.(storage := slots, code := data) else base.(storage := slots)
  }

  lemma PublishedShape(world: World, tx: Transaction, p: Prepared, n: Machine)
    ensures Published(world, tx, p, n) ==
      world[p.env.params.address :=
        PublishedTarget(world, tx, p.env.params.address, n.core.result, SlotsIn(n.storage))]
  {
  }

  lemma SameUpdate(world: World, a: Address, r: Record, q: Record)
    ensures world[a := r] == world[a := q] <==> r == q
  {
    assert world[a := r][a] == r && world[a := q][a] == q;
  }

  /** Over an account that exists, a create is published otherwise than it is flushed. */
  predicate Visible(world: World, tx: Transaction, a: Address, data: Bytes) {
    tx.action.Create? && a in world && (world[a].code != data || world[a].balance != world[a].nonce)
  }

  lemma TargetsDiffer(world: World, tx: Transaction, a: Address, data: Bytes, slots: Slots)
    requires tx.action.Call? ==> a in world
    ensures FlushedTarget(world, tx, a, data, slots) != PublishedTarget(world, tx, a, data, slots)
       <==> Visible(world, tx, a, data)
  {
  }

  lemma RedeploysVisibly(world: World, tx: Transaction, host: Host, p: Prepared, m: Machine)
    requires Ran(world, tx, host, p, m) && m.core.result != []
    ensures Redeploys(world, tx, host) <==> Visible(world, tx, TargetOf(tx, host), m.core.result)
  {
    RanOutcome(world, tx, host, p, m);
  }

  lemma SnapshotSlots(env: Env, m: Machine, n: Machine)
    requires Same(env, m, n)
    ensures SlotsIn(n.storage) == StorageOf(env.world, env.params.address) + Pending(env, m.storage.entries)
  {
  }

  lemma SettledVersusPublished(world: World, tx: Transaction, host: Host, p: Prepared, m: Machine, n: Machine)
    requires Ran(world, tx, host, p, m) && Same(p.env, m, n) && m.core.result != []
    ensures ExecuteSpec(world, tx, host).world == Published(world, tx, p, n)
       <==> !Redeploys(world, tx, host)
  {
    var a, data, slots := TargetOf(tx, host), m.core.result, FinalSlots(p, m);
    SettledShape(world, tx, host, p, m);
    CallTargetExists(world, tx, host, p);
    assert SlotsIn(n.storage) == slots by { SnapshotSlots(p.env, m, n); }
    PublishedShape(world, tx, p, n);
    SameUpdate(world, a, FlushedTarget(world, tx, a, data, slots), PublishedTarget(world, tx, a, data, slots));
    TargetsDiffer(world, tx, a, data, slots);
    RedeploysVisibly(world, tx, host, p, m);
  }

  /** The two ways of executing agree, but for a create that meets an existing account. */
  ghost predicate AgreeUnlessRedeployed(world: World, tx: Transaction, host: Host) {
    && ExecuteSpec(world, tx, host).result == Reference(world, tx, host).result
    && (ExecuteSpec(world, tx, host).world == Reference(world, tx, host).world <==> !Redeploys(world, tx, host))
  }

  lemma FailedSessionsAgree(world: World, tx: Transaction, host: Host, p: Prepared)
    requires Prepare(world, tx, host) == Ok(p)
    requires Session(p, Cached(map[])).Err? && Session(p, Snapshot(p)) == Session(p, Cached(map[]))
    ensures AgreeUnlessRedeployed(world, tx, host)
  {
    CallTargetExists(world, tx, host, p);
  }

  lemma ReferenceOutcome(world: World, tx: Transaction, host: Host, p: Prepared, n: Machine)
    requires Prepare(world, tx, host) == Ok(p) && Session(p, Snapshot(p)) == Ok(n)
    ensures Answered(p, n).Ok?
    ensures Reference(world, tx, host) ==
      if Blocked(world, tx, host, n.core.result) then Outcome(world, Err(HostPanic))
      else Outcome(PublishedWorld(world, tx, p, n), Answered(p, n))
  {
    CallTargetExists(world, tx, host, p);
    GasLeftNeverFails(p, Snapshot(p));
  }

  /** The answer is made of the core and the limit alone. */
  lemma SameAnswer(p: Prepared, m: Machine, n: Machine)
    requires m.core == n.core
    ensures Answered(p, m) == Answered(p, n)
  {
  }

  lemma SessionsAgree(world: World, tx: Transaction, host: Host, p: Prepared, m: Machine, n: Machine)
    requires Ran(world, tx, host, p, m) && Same(p.env, m, n) && Session(p, Snapshot(p)) == Ok(n)
    ensures AgreeUnlessRedeployed(world, tx, host)
  {
    SameAnswer(p, m, n);
    assert ExecuteSpec(world, tx, host) == Outcome(SettledWorld(p, tx, m), Answered(p, m))
           && Answered(p, m).Ok? && Answered(p, m).value.data == m.core.result by { RanOutcome(world, tx, host, p, m); }
    assert Reference(world, tx, host) == Outcome(PublishedWorld(world, tx, p, n), Answered(p, n)) by {
      ReferenceOutcome(world, tx, host, p, n);
    }
    if m.core.result == [] {
      assert p.env.world == world by { CallTargetExists(world, tx, host, p); }
      assert !Redeploys(world, tx, host);
    } else {
      assert SettledWorld(p, tx, m) == Published(world, tx, p, n) <==> !Redeploys(world, tx, host) by {
        SettledVersusPublished(world, tx, host, p, m, n);
      }
    }
  }

  lemma BlockedSessionsAgree(world: World, tx: Transaction, host: Host, p: Prepared, m: Machine, n: Machine)
    requires Prepare(world, tx, host) == Ok(p) && Session(p, Cached(map[])) == Ok(m) && Session(p, Snapshot(p)) == Ok(n)
    requires m.core == n.core && Blocked(world, tx, host, m.core.result)
    ensures AgreeUnlessRedeployed(world, tx, host)
  {
    ReferenceOutcome(world, tx, host, p, n);
    GasLeftNeverFails(p, Cached(map[]));
  }

  /** Cache, dirty bits, flush and commit decision amount to a snapshot published at the end, as long as
      no `ccall` tells the stored balance from the true one: always for the result and the gas, and for
      the chain unless a create meets an existing account. */
  lemma ExecuteRefinesReference(world: World, tx: Transaction, host: Host)
    requires UnbiasedTransaction(world, tx, host)
    ensures AgreeUnlessRedeployed(world, tx, host)
  {
    match Prepare(world, tx, host)
    case Err(_) =>
    case Ok(p) =>
      SessionRefines(p);
      match (Session(p, Cached(map[])), Session(p, Snapshot(p)))
      case (Ok(m), Ok(n)) =>
        if Blocked(world, tx, host, m.core.result) {
          BlockedSessionsAgree(world, tx, host, p, m, n);
        } else {
          SessionsAgree(world, tx, host, p, m, n);
        }
      case (Err(_), Err(_)) => FailedSessionsAgree(world, tx, host, p);
      case _ =>
  }

  // ----- what a caller can know beforehand -----

  /** The value that tells two different balances apart. */
  function Between(x: U256, y: U256): U256 {
    if x < y then y else x
  }

  /** As much as a contract with one page can pay at once. */
  function Spare(gasLimit: u64): u32
    requires gasLimit >= INITIAL_MEM
  {
    if gasLimit - INITIAL_MEM < U32_LIMIT then gasLimit - INITIAL_MEM else U32_LIMIT - 1
  }

  /** A session without a result succeeds or fails as a whole. */
  lemma EmptySessionDecides(world: World, tx: Transaction, host: Host, p: Prepared)
    requires Prepare(world, tx, host) == Ok(p)
    ensures match Session(p, Cached(map[]))
      case Ok(m) => m.core.result == [] ==> ExecuteSpec(world, tx, host).result.Ok?
      case Err(e) => ExecuteSpec(world, tx, host).result == Err(e)
  {
    if Session(p, Cached(map[])).Ok? { GasLeftNeverFails(p, Cached(map[])); }
  }

  lemma EmptySnapshotDecides(world: World, tx: Transaction, host: Host, p: Prepared)
    requires Prepare(world, tx, host) == Ok(p)
    ensures match Session(p, Snapshot(p))
      case Ok(n) => n.core.result == [] ==> Reference(world, tx, host).result.Ok?
      case Err(e) => Reference(world, tx, host).result == Err(e)
  {
    CallTargetExists(world, tx, host, p);
    if Session(p, Snapshot(p)).Ok? { GasLeftNeverFails(p, Snapshot(p)); }
  }

  lemma SessionsDiverge(p: Prepared, n: u32, v: U256)
    requires p.loaded == Transfers(n, v) && 0 < n <= p.env.gasLimit - INITIAL_MEM
    requires var world, a := p.env.world, p.env.params.address;
      StoredBalance(world, a) != TrueBalance(world, a) && v == Between(StoredBalance(world, a), TrueBalance(world, a))
    ensures Session(p, Cached(map[])).Ok? != Session(p, Snapshot(p)).Ok?
    ensures Session(p, Cached(map[])).Ok? ==> Session(p, Cached(map[])).value.core.result == []
    ensures Session(p, Snapshot(p)).Ok? ==> Session(p, Snapshot(p)).value.core.result == []
  {
    assert OwnBalance(p.env, Cached(map[])) == StoredBalance(p.env.world, p.env.params.address);
    assert OwnBalance(p.env, Snapshot(p)) == TrueBalance(p.env.world, p.env.params.address);
    TransfersSession(p, n, v, Cached(map[]));
    TransfersSession(p, n, v, Snapshot(p));
  }

  /** What a contract can pay that has bought one page. */
  lemma Enough(gas: U256) returns (n: u32)
    requires 4096 < gas * 8 / 3 < 0x1_0000_0000_0000_0000
    ensures n == Spare(ToWasmGas(gas)) && 0 < n <= ToWasmGas(gas) - INITIAL_MEM
    ensures (gas * 8 / 3 >= 4104 ==> n >= 8) && (gas * 8 / 3 >= 4099 ==> n >= 3)
  {
    GasUnits(gas);
    n := Spare(ToWasmGas(gas));
  }

  lemma TransfersRealizable(n: u32, v: U256)
    requires n >= 8
    ensures Realizable(Transfers(n, v))
  {
    OneCallCovered(n, TRANSFER);
    PayingRealizable(1, n, [TRANSFER], TransferMemory(v), Finish);
  }

  /** The gas limit a transaction runs with, in wasm gas. */
  lemma GasUnits(gas: U256)
    ensures ToWasmGas(gas) == gas * 8 / 3
  {
  }

  lemma DivergesWith(world: World, tx: Transaction, host: Host, p: Prepared, n: u32, v: U256)
    requires Prepare(world, tx, host) == Ok(p) && p.loaded == Transfers(n, v) && 0 < n <= p.env.gasLimit - INITIAL_MEM
    requires var w, a := p.env.world, p.env.params.address;
      StoredBalance(w, a) != TrueBalance(w, a) && v == Between(StoredBalance(w, a), TrueBalance(w, a))
    ensures ExecuteSpec(world, tx, host).result.Ok? != Reference(world, tx, host).result.Ok?
  {
    SessionsDiverge(p, n, v);
    EmptySessionDecides(world, tx, host, p);
    EmptySnapshotDecides(world, tx, host, p);
  }

  /** A contract that gets different answers when the balances differ. */
  lemma Diverges(world: World, tx: Transaction, host: Host) returns (loaded: Module)
    requires !FailsBeforeRun(world, tx, host) && !Balanced(world, TargetOf(tx, host))
    requires tx.gas * 8 / 3 >= 4104
    ensures Realizable(loaded)
    ensures ExecuteSpec(world, tx, With(host, loaded)).result.Ok?
         != Reference(world, tx, With(host, loaded)).result.Ok?
  {
    var n := Enough(tx.gas);
    var a := TargetOf(tx, host);
    var v := Between(StoredBalance(world, a), TrueBalance(world, a));
    loaded := Transfers(n, v);
    TransfersRealizable(n, v);
    PreparedWith(world, tx, host, loaded);
    DivergesWith(world, tx, With(host, loaded), Prepare(world, tx, With(host, loaded)).value, n, v);
  }

  lemma FailedAlike(world: World, tx: Transaction, host: Host)
    requires FailsBeforeRun(world, tx, host)
    ensures ExecuteSpec(world, tx, host) == Reference(world, tx, host)
    ensures ExecuteSpec(world, tx, host).world == world
  {
  }

  /** The start function of a contract that cannot afford calls of `k` operands. */
  lemma PoorStart(p: Prepared, storage: Storage, k: nat)
    requires k <= 7 && Realizable(p.loaded) && p.env.gasLimit < GasToCall(k) && InitialMachine(p, storage).Some?
    ensures var m := InitialMachine(p, storage).value; var started := StartRun(p, m);
      && Limited(p.loaded.start, p.env.gasLimit - m.core.gasCounter, k)
      && p.loaded.pages * INITIAL_MEM + GasTotal(Issued(p.loaded.start, started.history))
           <= started.machine.core.gasCounter <= p.env.gasLimit
  {
    var m := InitialMachine(p, storage).value;
    PoorLimited(p, p.loaded.start, 0, m.core.gasCounter, k);
    HostCollects(p.env);
    RunAccounted(StepOf(p.env), p.env.gasLimit, p.loaded.start, m.core.gasCounter, m, [], StepBound(p.env.gasLimit));
  }

  lemma PoorCall(p: Prepared, s: Strategy, started: Run, k: nat)
    requires k <= 7 && Realizable(p.loaded) && p.env.gasLimit < GasToCall(k)
    requires p.loaded.entry(started.history) == Some(s)
    requires p.loaded.pages * INITIAL_MEM + GasTotal(Issued(p.loaded.start, started.history))
               <= started.machine.core.gasCounter <= p.env.gasLimit
    ensures Limited(s, p.env.gasLimit - started.machine.core.gasCounter, k)
  {
    PoorLimited(p, s, GasTotal(Issued(p.loaded.start, started.history)), started.machine.core.gasCounter, k);
  }

  /** Without the gas for a page and a `ccall` no contract tells the balances apart. */
  lemma PoorUnbiased(p: Prepared)
    requires Realizable(p.loaded) && p.env.gasLimit < TRANSFER_GAS
    ensures UnbiasedSession(p)
  {
    if InitialMachine(p, Snapshot(p)).Some? {
      var n := InitialMachine(p, Snapshot(p)).value;
      PoorStart(p, Snapshot(p), 7);
      LimitedUnbiased(p.env, p.loaded.start, n.core.gasCounter, n, [], StepBound(p.env.gasLimit));
      var started := StartRun(p, n);
      match p.loaded.entry(started.history)
      case None =>
      case Some(s) =>
        PoorCall(p, s, started, 7);
        LimitedUnbiased(p.env, s, started.machine.core.gasCounter, started.machine, [], StepBound(p.env.gasLimit));
    }
  }

  /** Without the gas for a page and a `ret` no contract returns anything. */
  lemma PoorResult(p: Prepared)
    requires Realizable(p.loaded) && p.env.gasLimit < RETURN_GAS && Session(p, Cached(map[])).Ok?
    ensures Session(p, Cached(map[])).value.core.result == []
  {
    var m := InitialMachine(p, Cached(map[])).value;
    PoorStart(p, Cached(map[]), 2);
    LimitedResult(p.env, p.loaded.start, m.core.gasCounter, m, [], StepBound(p.env.gasLimit));
    var started := StartRun(p, m);
    match p.loaded.entry(started.history)
    case None =>
    case Some(s) =>
      PoorCall(p, s, started, 2);
      LimitedResult(p.env, s, started.machine.core.gasCounter, started.machine, [], StepBound(p.env.gasLimit));
  }

  lemma PoorTransaction(world: World, tx: Transaction, host: Host)
    requires RealizableLoader(host.load) && tx.gas * 8 / 3 < 4104
    ensures UnbiasedTransaction(world, tx, host)
  {
    match Prepare(world, tx, host)
    case Err(_) =>
    case Ok(p) =>
      PreparedLimit(world, tx, host, p);
      GasUnits(tx.gas);
      PoorUnbiased(p);
  }

  /** Nor does such a transaction change the chain. */
  lemma PoorKeepsChain(world: World, tx: Transaction, host: Host)
    requires RealizableLoader(host.load) && tx.gas * 8 / 3 < 4099
    ensures ExecuteSpec(world, tx, host).world == world
    ensures ExecuteSpec(world, tx, host).result.Ok? ==> ExecuteSpec(world, tx, host).result.value.data == []
  {
    if ExecuteSpec(world, tx, host).result.Ok? {
      var p, m := SuccessRan(world, tx, host);
      PreparedLimit(world, tx, host, p);
      GasUnits(tx.gas);
      PoorResult(p);
    }
    AllOrNothing(world, tx, host);
  }

  lemma BalancedAlike(world: World, tx: Transaction, host: Host)
    requires Balanced(world, TargetOf(tx, host))
    ensures ExecuteSpec(world, tx, host).result == Reference(world, tx, host).result
    ensures tx.action.Call? ==> ExecuteSpec(world, tx, host) == Reference(world, tx, host)
  {
    BalancedIsUnbiased(world, tx, host);
    ExecuteRefinesReference(world, tx, host);
  }

  /** What makes the answers right whatever contract is loaded: no contract runs, or the gas does not pay
      for a page and a `ccall`, or the target's nonce equals its balance. */
  predicate SafeAnswers(world: World, tx: Transaction, host: Host) {
    || FailsBeforeRun(world, tx, host)
    || tx.gas * 8 / 3 < 4104
    || Balanced(world, TargetOf(tx, host))
  }

  /** What makes the chain right, answers apart: no contract runs, or the gas does not pay for a page and a
      `ret`, or the transaction does not create over an existing account. */
  predicate SafeChain(world: World, tx: Transaction, host: Host) {
    || FailsBeforeRun(world, tx, host)
    || tx.gas * 8 / 3 < 4099
    || !(tx.action.Create? && TargetOf(tx, host) in world)
  }

  lemma FailsUnbiased(world: World, tx: Transaction, host: Host)
    requires FailsBeforeRun(world, tx, host)
    ensures UnbiasedTransaction(world, tx, host)
  {
    PreparedExactly(world, tx, host);
  }

  lemma SafeUnbiased(world: World, tx: Transaction, host: Host)
    requires RealizableLoader(host.load) && SafeAnswers(world, tx, host)
    ensures UnbiasedTransaction(world, tx, host)
  {
    if FailsBeforeRun(world, tx, host) {
      FailsUnbiased(world, tx, host);
    } else if tx.gas * 8 / 3 < 4104 {
      PoorTransaction(world, tx, host);
    } else {
      BalancedIsUnbiased(world, tx, host);
    }
  }

  lemma SafeAnswersAgree(world: World, tx: Transaction, host: Host)
    requires RealizableLoader(host.load) && SafeAnswers(world, tx, host)
    ensures ExecuteSpec(world, tx, host).result == Reference(world, tx, host).result
    ensures UnbiasedTransaction(world, tx, host)
  {
    SafeUnbiased(world, tx, host);
    ExecuteRefinesReference(world, tx, host);
  }

  lemma SafeChainsAgree(world: World, tx: Transaction, host: Host)
    requires RealizableLoader(host.load) && SafeChain(world, tx, host) && UnbiasedTransaction(world, tx, host)
    ensures ExecuteSpec(world, tx, host).world == Reference(world, tx, host).world
  {
    ExecuteRefinesReference(world, tx, host);
    if FailsBeforeRun(world, tx, host) {
      FailedAlike(world, tx, host);
    } else if tx.gas * 8 / 3 < 4099 {
      PoorKeepsChain(world, tx, host);
    }
  }

  lemma LoaderOf(host: Host, loaded: Module)
    requires Realizable(loaded)
    ensures RealizableLoader(With(host, loaded).load)
    ensures host.(load := With(host, loaded).load) == With(host, loaded)
  {
  }

  /** Code and reference answer alike whatever realizable contract is loaded: exactly when that is safe. */
  lemma ResultsAgreeExactly(world: World, tx: Transaction, host: Host)
    ensures (forall load: Bytes -> Option<Module> | RealizableLoader(load) ::
               ExecuteSpec(world, tx, host.(load := load)).result == Reference(world, tx, host.(load := load)).result)
       <==> SafeAnswers(world, tx, host)
  {
    if SafeAnswers(world, tx, host) {
      forall load: Bytes -> Option<Module> | RealizableLoader(load)
        ensures ExecuteSpec(world, tx, host.(load := load)).result == Reference(world, tx, host.(load := load)).result
      {
        SafeAnswersAgree(world, tx, host.(load := load));
      }
    } else {
      var loaded := Diverges(world, tx, host);
      LoaderOf(host, loaded);
    }
  }

  /** Committing one byte over an existing account. */
  lemma ReturnsCommit(world: World, tx: Transaction, host: Host, n: u32, b: Byte) returns (p: Prepared, m: Machine)
    requires !FailsBeforeRun(world, tx, host) && TargetOf(tx, host) in world
    requires 0 < n <= ToWasmGas(tx.gas) - INITIAL_MEM
    ensures Ran(world, tx, With(host, Returns(n, b)), p, m)
    ensures m.core.result == [b] && m.storage == Cached(map[])
  {
    PreparedWith(world, tx, host, Returns(n, b));
    p := Prepare(world, tx, With(host, Returns(n, b))).value;
    ReturnsSession(p, n, b, Cached(map[]));
    m := Session(p, Cached(map[])).value;
  }

  /** What committing over an existing account leaves there, if no slot was written. */
  lemma RedeployOutcome(world: World, tx: Transaction, host: Host, p: Prepared, m: Machine)
    requires Ran(world, tx, host, p, m) && tx.action.Create? && TargetOf(tx, host) in world
    requires m.core.result != [] && m.storage == Cached(map[])
    ensures var a, after := TargetOf(tx, host), ExecuteSpec(world, tx, host);
      && after.result.Ok? && after.result.value.data == m.core.result
      && after.world == world[a := Record(world[a].balance, world[a].nonce, world[a].code, world[a].storage)]
  {
    RanOutcome(world, tx, host, p, m);
    SettledShape(world, tx, host, p, m);
    CallTargetExists(world, tx, host, p);
    assert FinalSlots(p, m) == StorageOf(world, TargetOf(tx, host));
  }

  lemma ReturnsUnbiased(world: World, tx: Transaction, host: Host, n: u32, b: Byte)
    ensures UnbiasedTransaction(world, tx, With(host, Returns(n, b)))
  {
    PreparedWith(world, tx, host, Returns(n, b));
    match Prepare(world, tx, With(host, Returns(n, b)))
    case Err(_) =>
    case Ok(p) => SessionUnbiased(p);
  }

  /** Over an existing account the code keeps the old code, where publishing would replace it. */
  lemma RedeployDiverges(world: World, tx: Transaction, host: Host) returns (loaded: Module)
    requires !SafeChain(world, tx, host)
    ensures Realizable(loaded) && UnbiasedTransaction(world, tx, With(host, loaded))
    ensures ExecuteSpec(world, tx, With(host, loaded)).world != Reference(world, tx, With(host, loaded)).world
  {
    var n := Enough(tx.gas);
    var b: Byte := if world[TargetOf(tx, host)].code == [0] then 1 else 0;
    loaded := Returns(n, b);
    OneCallCovered(n, Ret(0, 1));
    PayingRealizable(1, n, [Ret(0, 1)], Page([b]), Finish);
    var p, m := ReturnsCommit(world, tx, host, n, b);
    RanOutcome(world, tx, With(host, loaded), p, m);
    ReturnsUnbiased(world, tx, host, n, b);
    ExecuteRefinesReference(world, tx, With(host, loaded));
  }

  /** They leave the same chain whatever realizable contract is loaded whose transfers do not tell the
      balances apart: exactly when that is safe. */
  lemma ChainsAgreeExactly(world: World, tx: Transaction, host: Host)
    ensures (forall load: Bytes -> Option<Module>
               | RealizableLoader(load) && UnbiasedTransaction(world, tx, host.(load := load)) ::
               ExecuteSpec(world, tx, host.(load := load)).world == Reference(world, tx, host.(load := load)).world)
       <==> SafeChain(world, tx, host)
  {
    if SafeChain(world, tx, host) {
      forall load: Bytes -> Option<Module>
        | RealizableLoader(load) && UnbiasedTransaction(world, tx, host.(load := load))
        ensures ExecuteSpec(world, tx, host.(load := load)).world == Reference(world, tx, host.(load := load)).world
      {
        SafeChainsAgree(world, tx, host.(load := load));
      }
    } else {
      var loaded := RedeployDiverges(world, tx, host);
      LoaderOf(host, loaded);
    }
  }

  /** They do both whatever realizable contract is loaded: exactly when both are safe. */
  lemma OutcomesAgreeExactly(world: World, tx: Transaction, host: Host)
    ensures (forall load: Bytes -> Option<Module> | RealizableLoader(load) ::
               ExecuteSpec(world, tx, host.(load := load)) == Reference(world, tx, host.(load := load)))
       <==> SafeAnswers(world, tx, host) && SafeChain(world, tx, host)
  {
    if SafeAnswers(world, tx, host) && SafeChain(world, tx, host) {
      forall load: Bytes -> Option<Module> | RealizableLoader(load)
        ensures ExecuteSpec(world, tx, host.(load := load)) == Reference(world, tx, host.(load := load))
      {
        SafeAnswersAgree(world, tx, host.(load := load));
        SafeChainsAgree(world, tx, host.(load := load));
      }
    } else {
      var loaded;
      if SafeAnswers(world, tx, host) {
        loaded := RedeployDiverges(world, tx, host);
      } else {
        loaded := Diverges(world, tx, host);
      }
      LoaderOf(host, loaded);
    }
  }

  // ----- histories -----

  /** The chain's count of contracts after a transaction: one more if the target is new. */
  function Later(host: Host, tx: Transaction, before: World, after: World): Host {
    var a := TargetOf(tx, host);
    host.(counter := host.counter + if a in after && a !in before then 1 else 0)
  }

  /** A history of transactions, executed one after the other. */
  function ExecuteAll(world: World, txs: seq<Transaction>, host: Host): (World, seq<Result<ResultData>>)
    decreases |txs|
  {
    if txs == [] then (world, []) else
    var first := ExecuteSpec(world, txs[0], host);
    var (last, results) := ExecuteAll(first.world, txs[1..], Later(host, txs[0], world, first.world));
    (last, [first.result] + results)
  }

  function ReferenceAll(world: World, txs: seq<Transaction>, host: Host): (World, seq<Result<ResultData>>)
    decreases |txs|
  {
    if txs == [] then (world, []) else
    var first := Reference(world, txs[0], host);
    var (last, results) := ReferenceAll(first.world, txs[1..], Later(host, txs[0], world, first.world));
    (last, [first.result] + results)
  }

  /** Every transaction meets the condition when its turn comes. */
  ghost predicate Throughout(world: World, txs: seq<Transaction>, host: Host,
                             ok: (World, Transaction, Host) -> bool)
    decreases |txs|
  {
    txs != [] ==>
      && ok(world, txs[0], host)
      && var after := ExecuteSpec(world, txs[0], host).world;
         Throughout(after, txs[1..], Later(host, txs[0], world, after), ok)
  }

  /** No create over an existing account, no `ccall` that tells the balances apart. */
  ghost predicate Faithful(world: World, tx: Transaction, host: Host) {
    && (tx.action.Create? ==> TargetOf(tx, host) !in world)
    && UnbiasedTransaction(world, tx, host)
  }

  /** Over whole histories the cached engine and the reference stay in step. */
  lemma {:induction false} HistoryRefines(world: World, txs: seq<Transaction>, host: Host)
    requires Throughout(world, txs, host, Faithful)
    ensures ExecuteAll(world, txs, host) == ReferenceAll(world, txs, host)
    decreases |txs|
  {
    if txs != [] {
      ExecuteRefinesReference(world, txs[0], host);
      var after := ExecuteSpec(world, txs[0], host).world;
      HistoryRefines(after, txs[1..], Later(host, txs[0], world, after));
    }
  }

  // ----- all or nothing -----

  /** The bytes the exported `call` handed to the `ret` that ended it; none if it ended otherwise. */
  function ReturnedBytes(p: Prepared, m: Machine): Bytes {
    var started := StartRun(p, m);
    match p.loaded.entry(started.history)
    case None => []
    case Some(s) =>
      var called := CallRun(p, s, started.machine);
      match (called.ending, s(called.history))
      case (Stopped(Return), Invoke(memory, Ret(ptr, len))) =>
        if ptr + len <= |memory| then memory[ptr..ptr + len] else []
      case _ => []
  }

  lemma ResultComesFromRet(p: Prepared)
    requires Session(p, Cached(map[])).Ok?
    ensures InitialMachine(p, Cached(map[])).Some?
    ensures Session(p, Cached(map[])).value.core.result == ReturnedBytes(p, InitialMachine(p, Cached(map[])).value)
  {
    var m := InitialMachine(p, Cached(map[])).value;
    RunResult(p.env, p.loaded.start, m, [], StepBound(p.env.gasLimit));
    var started := StartRun(p, m);
    match p.loaded.entry(started.history)
    case None =>
    case Some(s) => RunResult(p.env, s, started.machine, [], StepBound(p.env.gasLimit));
  }

  /** A transaction that succeeds answers with what the contract returned. The chain changes only
      if those bytes are not empty: a failure, a trap, a plain ending or an empty `ret` leaves it
      exactly as it was. */
  lemma AllOrNothing(world: World, tx: Transaction, host: Host)
    ensures var after := ExecuteSpec(world, tx, host);
      && (after.result.Err? ==> after.world == world)
      && (after.result.Ok? ==>
            && Prepare(world, tx, host).Ok? && InitialMachine(Prepare(world, tx, host).value, Cached(map[])).Some?
            && var p := Prepare(world, tx, host).value;
               var bytes := ReturnedBytes(p, InitialMachine(p, Cached(map[])).value);
               after.result.value.data == bytes && (bytes == [] ==> after.world == world))
  {
    match Prepare(world, tx, host)
    case Err(_) =>
    case Ok(p) =>
      if Session(p, Cached(map[])).Ok? {
        ResultComesFromRet(p);
        CallTargetExists(world, tx, host, p);
      }
  }

  /** What the answer names: the contract that ran, which for a call and for a create that commits has an
      account afterwards. It carries no logs. */
  lemma AnswerNames(world: World, tx: Transaction, host: Host)
    requires ExecuteSpec(world, tx, host).result.Ok?
    ensures var after, answer := ExecuteSpec(world, tx, host).world, ExecuteSpec(world, tx, host).result.value;
      && answer.contract == TargetOf(tx, host) && answer.logs == []
      && (tx.action.Call? || answer.data != [] ==> answer.contract in after)
  {
    var p, m := SuccessRan(world, tx, host);
    RanOutcome(world, tx, host, p, m);
    SettledShape(world, tx, host, p, m);
    CallTargetExists(world, tx, host, p);
  }

  /** The error of a transaction whose start function does not end normally. */
  lemma StartFailure(world: World, tx: Transaction, host: Host, p: Prepared, m: Machine)
    requires Prepare(world, tx, host) == Ok(p) && InitialMachine(p, Cached(map[])) == Some(m)
    requires StartRun(p, m).ending != Finished
    ensures ExecuteSpec(world, tx, host) == Outcome(world, Err(
      match StartRun(p, m).ending
      case Trapped(UnreachableTrap) => Unreachable
      case Trapped(MemoryAccessTrap) => MemoryAccessViolation
      case Trapped(TableAccessTrap) => InvalidVirtualCall
      case Trapped(DivisionTrap) => DivisionByZero
      case Trapped(ConversionTrap) => InvalidConversionToInt
      case Trapped(SignatureTrap) => InvalidVirtualCall
      case Trapped(StackTrap) => StackOverflow
      case Stopped(HostPanic) => HostPanic
      case _ => Other))
  {
  }

  /** The error of a transaction that cannot pay for its initial memory, 4096 units a page. */
  lemma MemoryFailure(world: World, tx: Transaction, host: Host, p: Prepared)
    requires Prepare(world, tx, host) == Ok(p)
    ensures InitialMachine(p, Cached(map[])).None? <==> p.loaded.pages * 4096 > p.env.gasLimit
    ensures p.loaded.pages * 4096 > p.env.gasLimit ==> ExecuteSpec(world, tx, host) == Outcome(world, Err(GasLimit))
  {
  }

  /** The error of a transaction whose exported `call` fails. */
  lemma CallFailure(world: World, tx: Transaction, host: Host, p: Prepared, m: Machine, s: Strategy)
    requires Prepare(world, tx, host) == Ok(p) && InitialMachine(p, Cached(map[])) == Some(m)
    requires StartRun(p, m).ending == Finished && p.loaded.entry(StartRun(p, m).history) == Some(s)
    requires !NoFailure(CallRun(p, s, StartRun(p, m).machine).ending)
    ensures ExecuteSpec(world, tx, host) == Outcome(world,
      Err(if CallRun(p, s, StartRun(p, m).machine).ending == Stopped(HostPanic) then HostPanic else Wasm))
  {
    RunResult(p.env, s, StartRun(p, m).machine, [], StepBound(p.env.gasLimit));
  }

  /** The ways an exported `call` can end without the transaction failing. */
  predicate NoFailure(ending: Ending) {
    ending == Finished || ending.Trapped? || ending == Stopped(Return)
  }

  /** Code for an account that is not there yet, on a chain that has numbered 2^31 - 1 contracts. */
  predicate NoNumberLeft(world: World, tx: Transaction, host: Host, data: Bytes) {
    data != [] && tx.action.Create? && TargetOf(tx, host) !in world && host.counter >= 0x7fff_ffff
  }

  /** What a success takes, step by step: the contract is found and loaded and the gas converts; the
      initial memory is paid for; the start function ends normally; and the module has no `call`, or it
      ends by itself, by any trap of the virtual machine, or by `ret`. */
  ghost predicate Succeeds(world: World, tx: Transaction, host: Host) {
    match Prepare(world, tx, host)
    case Err(_) => false
    case Ok(p) =>
      match InitialMachine(p, Cached(map[]))
      case None => false
      case Some(m) =>
        var started := StartRun(p, m);
        && started.ending == Finished
        && !NoNumberLeft(world, tx, host, ReturnedBytes(p, m))
        && match p.loaded.entry(started.history)
           case None => true
           case Some(s) => NoFailure(CallRun(p, s, started.machine).ending)
  }

  lemma CallSucceeds(p: Prepared, m: Machine)
    requires InitialMachine(p, Cached(map[])) == Some(m) && StartRun(p, m).ending == Finished
    ensures var started := StartRun(p, m);
      Session(p, Cached(map[])).Ok? <==>
        match p.loaded.entry(started.history)
        case None => true
        case Some(s) => NoFailure(CallRun(p, s, started.machine).ending)
  {
    var started := StartRun(p, m);
    match p.loaded.entry(started.history)
    case None =>
    case Some(s) => RunResult(p.env, s, started.machine, [], StepBound(p.env.gasLimit));
  }

  /** A trap of the virtual machine and a missing `call` count as success; every other abnormal end
      counts as failure. */
  lemma SucceedsExactly(world: World, tx: Transaction, host: Host)
    ensures ExecuteSpec(world, tx, host).result.Ok? <==> Succeeds(world, tx, host)
  {
    match Prepare(world, tx, host)
    case Err(_) =>
    case Ok(p) =>
      match InitialMachine(p, Cached(map[]))
      case None =>
      case Some(m) =>
        if StartRun(p, m).ending == Finished {
          CallSucceeds(p, m);
          if Session(p, Cached(map[])).Ok? {
            ResultComesFromRet(p);
            GasLeftNeverFails(p, Cached(map[]));
          }
        }
  }

  /** A successful run's writes reach the chain exactly when its result is non-empty, or when there
      was nothing to write. */
  lemma WritesPublishedExactly(world: World, tx: Transaction, host: Host, p: Prepared, m: Machine)
    requires Ran(world, tx, host, p, m)
    ensures StorageOf(ExecuteSpec(world, tx, host).world, TargetOf(tx, host)) == FinalSlots(p, m)
       <==> m.core.result != [] || FinalSlots(p, m) == StorageOf(world, TargetOf(tx, host))
  {
    SettledShape(world, tx, host, p, m);
    CallTargetExists(world, tx, host, p);
  }

  // ----- what a contract is told -----

  /** A contract that reads a slot and returns what it was told gets the caller what the chain holds there,
      or 32 zero bytes. */
  lemma ReadReachesCaller(world: World, tx: Transaction, host: Host, n: u32, key: H256)
    requires tx.action.Call? && !FailsBeforeRun(world, tx, host)
    requires 6 <= n && 4096 + n + 133 <= tx.gas * 8 / 3
    ensures Realizable(ReadsBack(n, key))
    ensures var result := ExecuteSpec(world, tx, With(host, ReadsBack(n, key))).result;
      && result.Ok?
      && result.value.data == ReadSlot(world[tx.action.address].storage, key)
  {
    ReadsBackCovered(n);
    PayingRealizable(1, n, [StorageRead(0, 32), Ret(32, 32)], Page(key), Finish);
    PreparedWith(world, tx, host, ReadsBack(n, key));
    var p := Prepare(world, tx, With(host, ReadsBack(n, key))).value;
    ReadsBackSession(p, n, key, Cached(map[]));
    FreshSlotReads(p.env, key);
    RanOutcome(world, tx, With(host, ReadsBack(n, key)), p, Session(p, Cached(map[])).value);
  }

  // ----- conservation -----

  /** No account but the target changes at all, none disappears, and only a create adds one. */
  lemma OthersUntouched(world: World, tx: Transaction, host: Host)
    ensures var after := ExecuteSpec(world, tx, host).world;
      && world.Keys <= after.Keys <= world.Keys + {TargetOf(tx, host)}
      && (forall b | b in world && b != TargetOf(tx, host) :: after[b] == world[b])
      && (tx.action.Call? ==> after.Keys == world.Keys)
  {
    if ExecuteSpec(world, tx, host).result.Ok? {
      var p, m := SuccessRan(world, tx, host);
      SettledShape(world, tx, host, p, m);
    } else {
      AllOrNothing(world, tx, host);
    }
  }

  /** A create commits over an account whose balance and nonce differ. */
  ghost predicate Exchanges(world: World, tx: Transaction, host: Host) {
    var a := TargetOf(tx, host);
    && tx.action.Create? && a in world && world[a].balance != world[a].nonce
    && var r := ExecuteSpec(world, tx, host).result; r.Ok? && r.value.data != []
  }

  predicate SameFunds(world: World, after: World) {
    forall b | b in world :: b in after && after[b].balance == world[b].balance && after[b].nonce == world[b].nonce
  }

  function Balances(world: World): map<Address, nat> {
    map b | b in world :: world[b].balance
  }

  ghost function Sum(amounts: map<Address, nat>): nat {
    if amounts == map[] then 0 else
    var a :| a in amounts;
    amounts[a] + Sum(amounts - {a})
  }

  ghost function TotalBalance(world: World): nat {
    Sum(Balances(world))
  }

  lemma {:induction false} SumWithout(amounts: map<Address, nat>, a: Address)
    requires a in amounts
    ensures Sum(amounts) == amounts[a] + Sum(amounts - {a})
    decreases |amounts|
  {
    var b :| b in amounts && Sum(amounts) == amounts[b] + Sum(amounts - {b});
    if a != b {
      var less := amounts - {b};
      SumWithout(less, a);
      assert less - {a} == (amounts - {a}) - {b};
      SumWithout(amounts - {a}, b);
    }
  }

  lemma SumUpdated(amounts: map<Address, nat>, a: Address, v: nat)
    ensures Sum(amounts[a := v]) == v + Sum(amounts - {a})
  {
    SumWithout(amounts[a := v], a);
    assert amounts[a := v] - {a} == amounts - {a};
  }

  lemma TotalUpdated(world: World, a: Address, r: Record)
    ensures TotalBalance(world[a := r]) == r.balance + Sum(Balances(world) - {a})
    ensures a in world ==> TotalBalance(world) == world[a].balance + Sum(Balances(world) - {a})
    ensures a !in world ==> TotalBalance(world) == Sum(Balances(world) - {a})
  {
    assert Balances(world[a := r]) == Balances(world)[a := r.balance];
    SumUpdated(Balances(world), a, r.balance);
    if a in world {
      SumWithout(Balances(world), a);
    } else {
      assert Balances(world) - {a} == Balances(world);
    }
  }

  /** What one new record does to the funds of all accounts. */
  lemma FundsOfUpdate(world: World, a: Address, r: Record)
    requires a !in world ==> r.balance == 0
    ensures SameFunds(world, world[a := r])
       <==> (a in world ==> r.balance == world[a].balance && r.nonce == world[a].nonce)
    ensures TotalBalance(world[a := r]) == TotalBalance(world)
       <==> (a in world ==> r.balance == world[a].balance)
  {
    TotalUpdated(world, a, r);
  }

  lemma CommittedFunds(world: World, tx: Transaction, host: Host, p: Prepared, m: Machine)
    requires Ran(world, tx, host, p, m) && m.core.result != []
    ensures var after := ExecuteSpec(world, tx, host).world;
      && (SameFunds(world, after) <==> !Exchanges(world, tx, host))
      && (TotalBalance(after) == TotalBalance(world) <==> !Exchanges(world, tx, host))
  {
    var a := TargetOf(tx, host);
    RanOutcome(world, tx, host, p, m);
    SettledShape(world, tx, host, p, m);
    FundsOfUpdate(world, a, FlushedTarget(world, tx, a, m.core.result, FinalSlots(p, m)));
  }

  /** Executing moves no funds: every balance and nonce, and the total, stay as they were, except
      when a create commits over an account whose balance and nonce differ. */
  lemma Conservation(world: World, tx: Transaction, host: Host)
    ensures var after := ExecuteSpec(world, tx, host).world;
      && (SameFunds(world, after) <==> !Exchanges(world, tx, host))
      && (TotalBalance(after) == TotalBalance(world) <==> !Exchanges(world, tx, host))
  {
    var r := ExecuteSpec(world, tx, host).result;
    if r.Ok? && r.value.data != [] {
      var p, m := SuccessRan(world, tx, host);
      CommittedFunds(world, tx, host, p, m);
    } else {
      AllOrNothing(world, tx, host);
    }
  }

  /** A transaction that may move funds, depending on the contract: it creates over an account whose
      balance and nonce differ, and its gas converts. */
  predicate MayExchange(world: World, tx: Transaction, host: Host) {
    var a := TargetOf(tx, host);
    tx.action.Create? && a in world && world[a].balance != world[a].nonce && tx.gas * 8 / 3 < 0x1_0000_0000_0000_0000
  }

  lemma NoExchange(world: World, tx: Transaction, host: Host)
    requires !MayExchange(world, tx, host)
    ensures !Exchanges(world, tx, host)
  {
    PreparedExactly(world, tx, host);
  }

  lemma SomeExchange(world: World, tx: Transaction, host: Host) returns (loaded: Module)
    requires MayExchange(world, tx, host) && tx.gas * 8 / 3 >= 4099
    ensures Realizable(loaded) && Exchanges(world, tx, With(host, loaded))
  {
    var n := Enough(tx.gas);
    loaded := Returns(n, 0);
    OneCallCovered(n, Ret(0, 1));
    PayingRealizable(1, n, [Ret(0, 1)], Page([0]), Finish);
    var p, m := ReturnsCommit(world, tx, host, n, 0);
    RanOutcome(world, tx, With(host, loaded), p, m);
  }

  lemma FundsKept(world: World, tx: Transaction, host: Host)
    requires !MayExchange(world, tx, host) || (tx.gas * 8 / 3 < 4099 && RealizableLoader(host.load))
    ensures SameFunds(world, ExecuteSpec(world, tx, host).world)
    ensures TotalBalance(ExecuteSpec(world, tx, host).world) == TotalBalance(world)
  {
    if MayExchange(world, tx, host) {
      PoorKeepsChain(world, tx, host);
    } else {
      NoExchange(world, tx, host);
      Conservation(world, tx, host);
    }
  }

  /** Whatever realizable contract is loaded no funds move: this is so exactly if the transaction does not
      create over an account whose balance and nonce differ, or its gas does not convert, or does not pay
      for a page and a `ret`. */
  lemma FundsKeptExactly(world: World, tx: Transaction, host: Host)
    ensures (forall load: Bytes -> Option<Module> | RealizableLoader(load) ::
               SameFunds(world, ExecuteSpec(world, tx, host.(load := load)).world))
       <==> !MayExchange(world, tx, host) || tx.gas * 8 / 3 < 4099
    ensures (forall load: Bytes -> Option<Module> | RealizableLoader(load) ::
               TotalBalance(ExecuteSpec(world, tx, host.(load := load)).world) == TotalBalance(world))
       <==> !MayExchange(world, tx, host) || tx.gas * 8 / 3 < 4099
  {
    if !MayExchange(world, tx, host) || tx.gas * 8 / 3 < 4099 {
      forall load: Bytes -> Option<Module> | RealizableLoader(load)
        ensures SameFunds(world, ExecuteSpec(world, tx, host.(load := load)).world)
        ensures TotalBalance(ExecuteSpec(world, tx, host.(load := load)).world) == TotalBalance(world)
      {
        FundsKept(world, tx, host.(load := load));
      }
    } else {
      var loaded := SomeExchange(world, tx, host);
      Conservation(world, tx, With(host, loaded));
      LoaderOf(host, loaded);
    }
  }

  ghost predicate NoFundsMove(world: World, tx: Transaction, host: Host) {
    !MayExchange(world, tx, host)
  }

  /** Over a history without such transactions no funds move. */
  lemma {:induction false} HistoryConserves(world: World, txs: seq<Transaction>, host: Host)
    requires Throughout(world, txs, host, NoFundsMove)
    ensures SameFunds(world, ExecuteAll(world, txs, host).0)
    ensures TotalBalance(ExecuteAll(world, txs, host).0) == TotalBalance(world)
    decreases |txs|
  {
    if txs != [] {
      NoExchange(world, txs[0], host);
      Conservation(world, txs[0], host);
      var after := ExecuteSpec(world, txs[0], host).world;
      HistoryConserves(after, txs[1..], Later(host, txs[0], world, after));
    }
  }

  /** Every transaction calls an account whose nonce equals its balance, or one that does not exist. */
  predicate CallsBalanced(world: World, txs: seq<Transaction>) {
    forall tx | tx in txs ::
      tx.action.Call? && (tx.action.address in world ==> Balanced(world, tx.action.address))
  }

  lemma CallAlike(world: World, tx: Transaction, host: Host)
    requires tx.action.Call? && (tx.action.address in world ==> Balanced(world, tx.action.address))
    ensures ExecuteSpec(world, tx, host) == Reference(world, tx, host)
    ensures SameFunds(world, ExecuteSpec(world, tx, host).world)
    ensures ExecuteSpec(world, tx, host).world.Keys == world.Keys
  {
    if tx.action.address in world {
      BalancedAlike(world, tx, host);
    } else {
      FailedAlike(world, tx, host);
    }
    FundsKept(world, tx, host);
    OthersUntouched(world, tx, host);
  }

  /** A history of such calls stays one, since calls move no funds: so whatever the contracts do, the
      cached engine and the reference stay in step all the way. */
  lemma {:induction false} BalancedHistoryRefines(world: World, txs: seq<Transaction>, host: Host)
    requires CallsBalanced(world, txs)
    ensures ExecuteAll(world, txs, host) == ReferenceAll(world, txs, host)
    decreases |txs|
  {
    if txs != [] {
      CallAlike(world, txs[0], host);
      var after := ExecuteSpec(world, txs[0], host).world;
      forall tx | tx in txs[1..]
        ensures tx.action.Call? && (tx.action.address in after ==> Balanced(after, tx.action.address))
      {
        assert tx in txs;
      }
      BalancedHistoryRefines(after, txs[1..], Later(host, txs[0], world, after));
    }
  }

  // ----- gas -----

  /** What a session is charged: its initial memory, and what each answered host call costs. */
  function Bill(p: Prepared, storage: Storage): seq<Charge>
    requires InitialMachine(p, storage).Some?
  {
    var m := InitialMachine(p, storage).value;
    var started := StartRun(p, m);
    [Raw(p.loaded.pages * 4096)]
      + Billed(p.env, p.loaded.start, m, [], StepBound(p.env.gasLimit))
      + match p.loaded.entry(started.history)
        case None => []
        case Some(s) => Billed(p.env, s, started.machine, [], StepBound(p.env.gasLimit))
  }

  /** The ledger of a session is that bill, call by call. */
  lemma SessionCharges(p: Prepared, storage: Storage)
    requires Session(p, storage).Ok?
    ensures InitialMachine(p, storage).Some? && Session(p, storage).value.core.charges == Bill(p, storage)
  {
    var m := InitialMachine(p, storage).value;
    assert m.core.charges == [Raw(p.loaded.pages * INITIAL_MEM)];
    var started := StartRun(p, m);
    assert started.machine.core.charges
        == m.core.charges + Billed(p.env, p.loaded.start, m, [], StepBound(p.env.gasLimit)) by {
      RunCharges(p.env, p.loaded.start, m, [], StepBound(p.env.gasLimit));
    }
    match p.loaded.entry(started.history)
    case None => assert Bill(p, storage) == started.machine.core.charges + [];
    case Some(s) => CallCharges(p, s, started.machine);
  }

  lemma CallCharges(p: Prepared, s: Strategy, m: Machine)
    requires Accepted(CallRun(p, s, m).ending)
    ensures CallRun(p, s, m).machine.core.charges
         == m.core.charges + Billed(p.env, s, m, [], StepBound(p.env.gasLimit))
  {
    RunResult(p.env, s, m, [], StepBound(p.env.gasLimit));
    RunCharges(p.env, s, m, [], StepBound(p.env.gasLimit));
  }

  /** The refund never exceeds the gas supplied, and what was used is the nominal price of the calls
      made up to rounding: two eighths lost per scaled charge, nine eighths gained at most. */
  lemma GasUsed(world: World, tx: Transaction, host: Host, p: Prepared, m: Machine)
    requires Ran(world, tx, host, p, m)
    ensures ExecuteSpec(world, tx, host).result.Ok? && InitialMachine(p, Cached(map[])).Some?
    ensures var refund, bill := ExecuteSpec(world, tx, host).result.value.gasLeft, Bill(p, Cached(map[]));
      && refund <= tx.gas
      && 8 * NominalTotal(bill) + 3 * RawTotal(bill) - 2 * AdjustedCount(bill) <= 8 * (tx.gas - refund)
      && 8 * (tx.gas - refund) <= 8 * NominalTotal(bill) + 3 * RawTotal(bill) + 9
  {
    PreparedLimit(world, tx, host, p);
    RanOutcome(world, tx, host, p, m);
    SessionCharges(p, Cached(map[]));
    MeteringError(tx.gas, m.core.charges, Answered(p, m).value.gasLeft);
  }

  lemma PriceByCounts(dirty: set<H256>, raised: set<H256>)
    requires raised <= dirty
    ensures StoragePrice(dirty, raised) == RESET_PRICE * |dirty| + (SET_PRICE - RESET_PRICE) * |raised|
  {
  }

  lemma CardinalityMonotone(a: set<H256>, b: set<H256>)
    requires a <= b
    ensures |a| <= |b|
  {
    assert b == a + (b - a);
  }

  lemma PriceMonotone(changed: set<H256>, raised: set<H256>, dirty: set<H256>, raisedNow: set<H256>)
    requires raised <= changed <= dirty && raised <= raisedNow <= dirty
    ensures StoragePrice(changed, raised) <= StoragePrice(dirty, raisedNow)
  {
    CardinalityMonotone(raised, raisedNow);
    CardinalityMonotone(changed, dirty);
    PriceByCounts(changed, raised);
    PriceByCounts(dirty, raisedNow);
    CountsOrder(|changed|, |raised|, |dirty|, |raisedNow|);
  }

  lemma CountsOrder(changed: nat, raised: nat, dirty: nat, raisedNow: nat)
    requires changed <= dirty && raised <= raisedNow
    ensures RESET_PRICE * changed + (SET_PRICE - RESET_PRICE) * raised
         <= RESET_PRICE * dirty + (SET_PRICE - RESET_PRICE) * raisedNow
  {
  }

  /** Only slots with a pending write read differently afterwards. */
  lemma ChangesArePending(before: Slots, pending: Slots, k: H256)
    requires ReadSlot(before + pending, k) != ReadSlot(before, k)
    ensures k in pending
    ensures ReadSlot(before, k) == ZERO_HASH ==> k in Raising(before, pending)
  {
  }

  /** The slots whose value a transaction changes, and those of them it raises from zero. */
  ghost predicate ChangedBy(before: Slots, after: Slots, changed: set<H256>, raised: set<H256>) {
    && raised <= changed
    && (forall k | k in changed :: ReadSlot(after, k) != ReadSlot(before, k))
    && (forall k | k in raised :: ReadSlot(before, k) == ZERO_HASH)
  }

  lemma PendingPaysForChanges(env: Env, m: Machine, changed: set<H256>, raised: set<H256>)
    requires Healthy(env, m)
    requires var before := StorageOf(env.world, env.params.address);
      ChangedBy(before, before + Pending(env, m.storage.entries), changed, raised)
    ensures StoragePrice(changed, raised) <= m.core.gasCounter
  {
    var before, pending := StorageOf(env.world, env.params.address), Pending(env, m.storage.entries);
    forall k | k in changed ensures k in pending && (k in raised ==> k in Raising(before, pending)) {
      ChangesArePending(before, pending, k);
    }
    PriceMonotone(changed, raised, DirtyKeys(env, m.storage.entries), RaisedKeys(env, m.storage.entries));
  }

  lemma NothingChanged(slots: Slots, changed: set<H256>, raised: set<H256>)
    requires ChangedBy(slots, slots, changed, raised)
    ensures StoragePrice(changed, raised) == 0
  {
    assert changed == {} && raised == {};
  }

  lemma FinalSlotsPaid(p: Prepared, m: Machine, changed: set<H256>, raised: set<H256>)
    requires Healthy(p.env, m)
    requires ChangedBy(StorageOf(p.env.world, p.env.params.address), FinalSlots(p, m), changed, raised)
    ensures StoragePrice(changed, raised) <= p.env.gasLimit
  {
    PendingPaysForChanges(p.env, m, changed, raised);
  }

  lemma PreparedLimit(world: World, tx: Transaction, host: Host, p: Prepared)
    requires Prepare(world, tx, host) == Ok(p)
    ensures p.env.gasLimit == ToWasmGas(tx.gas)
  {
  }

  lemma ChangesWithinGas(world: World, tx: Transaction, host: Host, changed: set<H256>, raised: set<H256>)
    requires ChangedBy(StorageOf(world, TargetOf(tx, host)),
                       StorageOf(ExecuteSpec(world, tx, host).world, TargetOf(tx, host)), changed, raised)
    ensures StoragePrice(changed, raised) <= ToWasmGas(tx.gas)
  {
    var before := StorageOf(world, TargetOf(tx, host));
    var result := ExecuteSpec(world, tx, host).result;
    if result.Ok? && result.value.data != [] {
      var p, m := SuccessRan(world, tx, host);
      WritesPublishedExactly(world, tx, host, p, m);
      CallTargetExists(world, tx, host, p);
      PreparedLimit(world, tx, host, p);
      SessionHealthy(p);
      FinalSlotsPaid(p, m, changed, raised);
    } else {
      AllOrNothing(world, tx, host);
      NothingChanged(before, changed, raised);
    }
  }

  lemma PriceInUnits(dirty: set<H256>, raised: set<H256>)
    ensures StoragePrice(dirty, raised) == 53333 * |raised| + 13333 * |dirty - raised|
  {
  }

  /** The slots whose value a transaction changes are paid for out of the gas supplied: each costs at
      least the reset price, and each one raised from zero the set price. */
  lemma ChangedSlotsPaid(world: World, tx: Transaction, host: Host, changed: set<H256>, raised: set<H256>)
    requires ChangedBy(StorageOf(world, TargetOf(tx, host)),
                       StorageOf(ExecuteSpec(world, tx, host).world, TargetOf(tx, host)), changed, raised)
    ensures 53333 * |raised| + 13333 * |changed - raised| <= tx.gas * 8 / 3
  {
    PriceInUnits(changed, raised);
    ChangesWithinGas(world, tx, host, changed, raised);
  }

  /** Every log entry of a session has been paid for out of the gas supplied. */
  lemma SessionLogsPaid(world: World, tx: Transaction, host: Host, p: Prepared, m: Machine)
    requires Ran(world, tx, host, p, m)
    ensures 1170 * |m.core.logs| <= m.core.gasCounter <= tx.gas * 8 / 3
  {
    SessionHealthy(p);
  }

  // ----- termination and panics -----

  /** Gas ends every session of a metered module: neither the start function nor the exported call
      is cut short, and each makes at most two host calls per unit of gas. */
  lemma GasEndsSession(p: Prepared, storage: Storage)
    requires MeteredModule(p.loaded) && InitialMachine(p, storage).Some?
    ensures var started := StartRun(p, InitialMachine(p, storage).value);
      && started.ending != Cut && |started.history| <= 2 * p.env.gasLimit
      && match p.loaded.entry(started.history)
         case None => true
         case Some(s) =>
           var called := CallRun(p, s, started.machine);
           called.ending != Cut && |called.history| <= 2 * p.env.gasLimit
  {
    PaidLedger(p.env, FreshMachine(storage), Raw(p.loaded.pages * INITIAL_MEM));
    HostCollects(p.env);
    var m := InitialMachine(p, storage).value;
    GasEndsRun(StepOf(p.env), p.env.gasLimit, p.loaded.start, m, [], StepBound(p.env.gasLimit));
    RunLedger(p.env, p.loaded.start, m, [], StepBound(p.env.gasLimit));
    var started := StartRun(p, m);
    match p.loaded.entry(started.history)
    case None =>
    case Some(s) => GasEndsRun(StepOf(p.env), p.env.gasLimit, s, started.machine, [], StepBound(p.env.gasLimit));
  }

  /** The conversion of the gas supplied overflows, and the code gets that far. */
  predicate GasOverflows(world: World, tx: Transaction, host: Host) {
    && CodeOf(world, tx).Some? && host.load(CodeOf(world, tx).value).Some?
    && tx.gas * 8 >= 0x1_0000000000000000_0000000000000000_0000000000000000_0000000000000000
  }

  /** The last call of a run is one that no run survives, and it is not refused for want of gas. */
  predicate LastCallPanics(env: Env, s: Strategy, run: Run) {
    && run.ending.Stopped? && run.ending != Stopped(GasLimit)
    && s(run.history).Invoke? && Panics(env, s(run.history).call)
  }

  /** A contract panics its host: the start function, or after it the exported `call`. */
  predicate ContractPanics(p: Prepared) {
    match InitialMachine(p, Cached(map[]))
    case None => false
    case Some(m) =>
      var started := StartRun(p, m);
      || LastCallPanics(p.env, p.loaded.start, started)
      || (started.ending == Finished &&
          match p.loaded.entry(started.history)
          case None => false
          case Some(s) => LastCallPanics(p.env, s, CallRun(p, s, started.machine)))
  }

  lemma SessionPanicsExactly(p: Prepared)
    ensures Session(p, Cached(map[])) == Err(HostPanic) <==> ContractPanics(p)
  {
    match InitialMachine(p, Cached(map[]))
    case None =>
    case Some(m) =>
      RunPanicsExactly(p.env, p.loaded.start, m, [], StepBound(p.env.gasLimit));
      var started := StartRun(p, m);
      match p.loaded.entry(started.history)
      case None =>
      case Some(s) => RunPanicsExactly(p.env, s, started.machine, [], StepBound(p.env.gasLimit));
  }

  /** The contract ran and returned code for an account that the chain cannot number. */
  predicate CounterOverflows(world: World, tx: Transaction, host: Host, p: Prepared) {
    match Session(p, Cached(map[]))
    case Err(_) => false
    case Ok(m) => NoNumberLeft(world, tx, host, m.core.result)
  }

  /** Executing panics in three ways and no other: the gas conversion overflows, the contract makes a
      call that panics, or the contract counter overflows at the commit. */
  lemma PanicsExactly(world: World, tx: Transaction, host: Host)
    ensures ExecuteSpec(world, tx, host).result == Err(HostPanic) <==>
      || GasOverflows(world, tx, host)
      || (Prepare(world, tx, host).Ok? && ContractPanics(Prepare(world, tx, host).value))
      || (Prepare(world, tx, host).Ok? && CounterOverflows(world, tx, host, Prepare(world, tx, host).value))
  {
    PreparedExactly(world, tx, host);
    match Prepare(world, tx, host)
    case Err(_) =>
    case Ok(p) =>
      SessionPanicsExactly(p);
      if Session(p, Cached(map[])).Ok? { GasLeftNeverFails(p, Cached(map[])); }
  }
}
