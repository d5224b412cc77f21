/** Realizable contracts whose sessions can be followed step by step. */
module Witnesses {
  import opened Types
  import opened Numbers
  import opened Metering
  import opened HostMachine
  import opened HostEffects
  import opened Runs
  import opened Execution
  import opened Realizability

  /** The memory as the last host call left it; at the start, or if the size were another, `first`. */
  function Heard(h: History, first: Bytes): Bytes {
    if h != [] && |h[|h| - 1].memory| == |first| then h[|h| - 1].memory else first
  }

  /** Makes the calls one after the other, leaving memory alone in between, and then the move `last`. */
  function Script(calls: seq<HostCall>, first: Bytes, last: Move): Strategy {
    h => if |h| < |calls| then Invoke(Heard(h, first), calls[|h|]) else last
  }

  /** A module with an empty start function whose `call` first pays `n` units. */
  function Paying(pages: u32, n: u32, calls: seq<HostCall>, memory: Bytes, last: Move): Module {
    Module(pages, _ => Finish, _ => Some(Script([Gas(n)] + calls, memory, last)))
  }

  /** One page that begins with `content`. */
  function Page(content: Bytes): (memory: Bytes)
    requires |content| <= PAGE_SIZE
    ensures |memory| == PAGE_SIZE && memory[..|content|] == content
  {
    content + seq(PAGE_SIZE - |content|, _ => 0)
  }

  /** Every code loads as `loaded`. */
  function With(host: Host, loaded: Module): Host {
    host.(load := _ => Some(loaded))
  }

  // ----- they are realizable -----

  lemma {:induction false} ScriptIssues(calls: seq<HostCall>, memory: Bytes, last: Move, h: History)
    requires !last.Invoke?
    ensures Issued(Script(calls, memory, last), h) == calls[..if |h| < |calls| then |h| else |calls|]
  {
    if h != [] {
      var before := h[..|h| - 1];
      ScriptIssues(calls, memory, last, before);
      if |before| < |calls| {
        assert calls[..|before|] + [calls[|before|]] == calls[..|h|];
      }
    }
  }

  lemma {:induction false} SilentIssues(s: Strategy, h: History)
    requires forall g :: s(g) == Finish
    ensures Issued(s, h) == []
  {
    if h != [] { SilentIssues(s, h[..|h| - 1]); }
  }

  /** The payment covers all calls after it. */
  lemma {:induction false} PaysFirst(n: u32, calls: seq<HostCall>, k: nat)
    requires 0 < n && |calls| <= n && k <= |calls| + 1
    ensures var made := ([Gas(n)] + calls)[..k]; OtherCalls(made) <= GasTotal(made)
    ensures k > 0 ==> var made := ([Gas(n)] + calls)[..k]; OtherCalls(made) < k && n <= GasTotal(made)
  {
    var all := [Gas(n)] + calls;
    if k > 0 {
      PaysFirst(n, calls, k - 1);
      assert all[..k][..k - 1] == all[..k - 1];
      assert all[..k][k - 1] == all[k - 1];
    }
  }

  /** What a list of calls takes in instructions, nothing left over from one being used by another. */
  function Toll(calls: seq<HostCall>): nat {
    if calls == [] then 0 else Toll(calls[..|calls| - 1]) + Instructions(calls[|calls| - 1])
  }

  /** A payment of the whole toll covers the work up to and including every call. */
  lemma {:induction false} TollCovers(n: u32, calls: seq<HostCall>, k: nat)
    requires k <= |calls|
    ensures var all := [Gas(n)] + calls; Work(all[..k + 1]) <= Toll(calls[..k]) && n <= GasTotal(all[..k + 1])
  {
    var all := [Gas(n)] + calls;
    if k > 0 {
      TollCovers(n, calls, k - 1);
      assert all[..k + 1][..k] == all[..k] && all[..k + 1][k] == calls[k - 1];
      assert calls[..k][..k - 1] == calls[..k - 1];
    } else {
      assert all[..1][..0] == [] && all[..1][0] == Gas(n);
    }
  }

  lemma {:induction false} TollGrows(calls: seq<HostCall>, k: nat)
    requires k <= |calls|
    ensures Toll(calls[..k]) <= Toll(calls)
    decreases |calls|
  {
    if k < |calls| {
      TollGrows(calls[..|calls| - 1], k);
      assert calls[..|calls| - 1][..k] == calls[..k];
    } else {
      assert calls[..k] == calls;
    }
  }

  lemma ScriptMovePaid(n: u32, calls: seq<HostCall>, k: nat)
    requires Toll(calls) <= n && k <= |calls|
    ensures var all := [Gas(n)] + calls; Work(all[..k]) + Instructions(all[k]) <= GasTotal(all[..k])
  {
    var all := [Gas(n)] + calls;
    if k > 0 {
      TollCovers(n, calls, k - 1);
      TollGrows(calls, k);
      assert calls[..k][..k - 1] == calls[..k - 1];
      assert all[k] == calls[k - 1];
    }
  }

  lemma {:induction false} TollCounts(calls: seq<HostCall>)
    requires forall i | 0 <= i < |calls| :: !calls[i].Gas?
    ensures |calls| <= Toll(calls)
  {
    if calls != [] { TollCounts(calls[..|calls| - 1]); }
  }

  /** The payment covers the toll, and with it every call. */
  predicate Covers(n: u32, calls: seq<HostCall>) {
    0 < n && Toll(calls) <= n && forall i | 0 <= i < |calls| :: !calls[i].Gas?
  }

  lemma ScriptMetered(n: u32, calls: seq<HostCall>, memory: Bytes, last: Move)
    requires Covers(n, calls) && !last.Invoke?
    ensures Metered(Script([Gas(n)] + calls, memory, last))
  {
    var all, s := [Gas(n)] + calls, Script([Gas(n)] + calls, memory, last);
    TollCounts(calls);
    forall h ensures OtherCalls(Issued(s, h)) <= GasTotal(Issued(s, h)) {
      ScriptIssues(all, memory, last, h);
      PaysFirst(n, calls, if |h| < |all| then |h| else |all|);
    }
  }

  lemma ScriptProvided(pages: u32, n: u32, calls: seq<HostCall>, memory: Bytes, last: Move, paid: nat)
    requires Covers(n, calls) && !last.Invoke?
    requires pages <= MAX_PAGES && |memory| == pages * PAGE_SIZE
    ensures Provided(Script([Gas(n)] + calls, memory, last), pages, paid)
  {
    var all, s := [Gas(n)] + calls, Script([Gas(n)] + calls, memory, last);
    assert |memory| / PAGE_SIZE == pages && |memory| % PAGE_SIZE == 0;
    forall h | s(h).Invoke? ensures MovePaid(s(h).memory, s(h).call, pages, paid, Issued(s, h)) {
      ScriptIssues(all, memory, last, h);
      ScriptMovePaid(n, calls, |h|);
      assert |s(h).memory| == |memory|;
    }
  }

  lemma PayingRealizable(pages: u32, n: u32, calls: seq<HostCall>, memory: Bytes, last: Move)
    requires Covers(n, calls) && !last.Invoke?
    requires pages <= MAX_PAGES && |memory| == pages * PAGE_SIZE
    ensures Realizable(Paying(pages, n, calls, memory, last))
  {
    var loaded := Paying(pages, n, calls, memory, last);
    ScriptMetered(n, calls, memory, last);
    forall h ensures Issued(loaded.start, h) == [] {
      SilentIssues(loaded.start, h);
    }
    forall h | loaded.entry(h).Some?
      ensures Provided(loaded.entry(h).value, pages, GasTotal(Issued(loaded.start, h)))
    {
      ScriptProvided(pages, n, calls, memory, last, GasTotal(Issued(loaded.start, h)));
    }
  }

  lemma OneCallCovered(n: u32, call: HostCall)
    requires !call.Gas? && 1 + Operands(call) <= n
    ensures Covers(n, [call])
  {
    assert [call][..0] == [];
  }

  // ----- their sessions -----

  /** Whatever contract is loaded, it runs unless the target of a call is missing or the gas does not
      convert. */
  predicate FailsBeforeRun(world: World, tx: Transaction, host: Host) {
    (tx.action.Call? && TargetOf(tx, host) !in world) || tx.gas * 8 / 3 >= 0x1_0000_0000_0000_0000
  }

  lemma PreparedWith(world: World, tx: Transaction, host: Host, loaded: Module)
    ensures Prepare(world, tx, With(host, loaded)).Err? <==> FailsBeforeRun(world, tx, host)
    ensures match Prepare(world, tx, With(host, loaded))
      case Err(_) => true
      case Ok(p) =>
        && p.loaded == loaded && p.env.world == world && p.env.params.address == TargetOf(tx, host)
        && p.env.gasLimit == ToWasmGas(tx.gas) && p.env.blocks == host.blocks
  {
  }

  /** The machine in which the exported `call` of such a module starts. */
  function Primed(pages: u32, storage: Storage): Machine {
    Machine(Core(pages * INITIAL_MEM, [], [], [], [Raw(pages * INITIAL_MEM)]), storage)
  }

  /** The machine once it has paid, at its next call. */
  function Ready(pages: u32, n: u32, memory: Bytes, storage: Storage): Machine {
    Machine(Core(pages * INITIAL_MEM + n, memory, [], [], [Raw(pages * INITIAL_MEM), Raw(n)]), storage)
  }

  /** How a contract ends that makes `calls` and then the move `last`. */
  function Play(step: Stepper, m: Machine, calls: seq<HostCall>, last: Move): (Machine, Ending)
    requires !last.Invoke?
    decreases |calls|
  {
    if calls == [] then (m, if last.Finish? then Finished else Trapped(last.kind)) else
    var r := step(m, calls[0]);
    match r.outcome
    case Err(e) => (r.machine, Stopped(e))
    case Ok(_) => Play(step, r.machine, calls[1..], last)
  }

  lemma OneCallPlays(step: Stepper, m: Machine, call: HostCall)
    ensures var r := step(m, call);
      Play(step, m, [call], Finish) == (r.machine, match r.outcome case Err(e) => Stopped(e) case Ok(_) => Finished)
  {
    assert [call][1..] == [];
  }

  lemma FirstCallPlays(step: Stepper, m: Machine, calls: seq<HostCall>)
    requires calls != []
    ensures var r := step(m, calls[0]);
      Play(step, m, calls, Finish) ==
        match r.outcome
        case Err(e) => (r.machine, Stopped(e))
        case Ok(_) => Play(step, r.machine, calls[1..], Finish)
  {
  }

  /** No call changes the size of memory. */
  ghost predicate KeepsSize(step: Stepper) {
    forall m: Machine, call: HostCall :: |step(m, call).machine.core.memory| == |m.core.memory|
  }

  lemma StepKeepsSize(env: Env, m: Machine, call: HostCall)
    ensures |Step(env, m, call).machine.core.memory| == |m.core.memory|
  {
  }

  lemma HostKeepsSize(env: Env)
    ensures KeepsSize(StepOf(env))
  {
    forall m: Machine, call: HostCall ensures |StepOf(env)(m, call).machine.core.memory| == |m.core.memory| {
      StepKeepsSize(env, m, call);
    }
  }

  lemma {:induction false} ScriptPlays(step: Stepper, calls: seq<HostCall>, first: Bytes, last: Move, m: Machine,
                                       h: History, steps: nat)
    requires !last.Invoke? && KeepsSize(step) && |h| <= |calls| <= |h| + steps
    requires if h == [] then calls != [] else m.core.memory == Heard(h, first)
    ensures var run := RunFrom(step, Script(calls, first, last), m, h, steps);
      (run.machine, run.ending) == Play(step, WithMemory(m, Heard(h, first)), calls[|h|..], last)
    decreases steps
  {
    var s := Script(calls, first, last);
    if |h| < |calls| {
      var r := Serve(step, s, m, h);
      assert r == step(WithMemory(m, Heard(h, first)), calls[|h|..][0]);
      if r.outcome.Ok? {
        assert Heard(Told(h, r), first) == r.machine.core.memory;
        ScriptPlays(step, calls, first, last, r.machine, Told(h, r), steps - 1);
        assert calls[|h|..][1..] == calls[|h| + 1..];
      }
    } else {
      assert calls[|h|..] == [];
    }
  }

  function Ended(m: Machine, ending: Ending): Result<Machine> {
    if Accepted(ending) then Ok(m) else Err(CallError(ending))
  }

  lemma PlainSession(p: Prepared, s: Strategy, storage: Storage)
    requires p.loaded.start([]) == Finish && p.loaded.entry([]) == Some(s)
    requires p.loaded.pages * INITIAL_MEM <= p.env.gasLimit
    ensures InitialMachine(p, storage) == Some(Primed(p.loaded.pages, storage))
    ensures var run := CallRun(p, s, Primed(p.loaded.pages, storage));
      Session(p, storage) == Ended(run.machine, run.ending)
  {
    assert [] + [Raw(p.loaded.pages * INITIAL_MEM)] == [Raw(p.loaded.pages * INITIAL_MEM)];
    assert StartRun(p, Primed(p.loaded.pages, storage)) == Run(Primed(p.loaded.pages, storage), Finished, []);
  }

  lemma PayingStep(env: Env, pages: u32, n: u32, memory: Bytes, storage: Storage)
    requires pages * INITIAL_MEM + n <= env.gasLimit
    ensures Step(env, WithMemory(Primed(pages, storage), memory), Gas(n))
         == StepResult(Ready(pages, n, memory, storage), Ok(None))
  {
    assert [Raw(pages * INITIAL_MEM)] + [Raw(n)] == [Raw(pages * INITIAL_MEM), Raw(n)];
  }

  /** The session is the payment followed by the calls. */
  lemma PayingSession(p: Prepared, pages: u32, n: u32, calls: seq<HostCall>, memory: Bytes, last: Move,
                      storage: Storage)
    requires p.loaded == Paying(pages, n, calls, memory, last) && !last.Invoke?
    requires pages * INITIAL_MEM + n <= p.env.gasLimit && |calls| <= n
    ensures InitialMachine(p, storage).Some?
    ensures var (m, ending) := Play(StepOf(p.env), Ready(pages, n, memory, storage), calls, last);
      Session(p, storage) == Ended(m, ending)
  {
    var all := [Gas(n)] + calls;
    PlainSession(p, Script(all, memory, last), storage);
    HostKeepsSize(p.env);
    ScriptPlays(StepOf(p.env), all, memory, last, Primed(pages, storage), [], StepBound(p.env.gasLimit));
    assert all[0..] == all && all[1..] == calls;
    PayingStep(p.env, pages, n, memory, storage);
  }

  // ----- returning one byte -----

  /** A contract with one page that pays `n` and returns the byte `b`. */
  function Returns(n: u32, b: Byte): Module {
    Paying(1, n, [Ret(0, 1)], Page([b]), Finish)
  }

  lemma ReturnsSession(p: Prepared, n: u32, b: Byte, storage: Storage)
    requires p.loaded == Returns(n, b) && 0 < n <= p.env.gasLimit - INITIAL_MEM
    ensures var r := Session(p, storage);
      r.Ok? && r.value.core.result == [b] && r.value.storage == storage
  {
    PayingSession(p, 1, n, [Ret(0, 1)], Page([b]), Finish, storage);
    assert Slice(Page([b]), 0, 1) == [b];
  }

  // ----- comparing a value with the balance -----

  const TRANSFER := Ccall(0, 0, 20, 0, 0, 0, 0)

  /** An address at 0, `v` after it, and a byte to return at 52. */
  function TransferMemory(v: U256): Bytes {
    Page(Zeros(20) + BigEndian(v) + [1])
  }

  lemma TransferValue(v: U256)
    ensures FromBigEndian(Slice(TransferMemory(v), 20, 32)) == v
  {
    BigEndianWord(v);
    assert Slice(TransferMemory(v), 20, 32) == BigEndian(v);
  }

  lemma TransferStep(env: Env, n: u32, v: U256, storage: Storage)
    ensures var r := Step(env, Ready(1, n, TransferMemory(v), storage), TRANSFER);
      if OwnBalance(env, storage) < v
      then r.outcome == Ok(Some(-1)) && r.machine.core == Ready(1, n, TransferMemory(v), storage).core
      else r.outcome == Err(GasLimit) || r.outcome == Err(Panic)
  {
    TransferValue(v);
  }

  /** A contract with one page that pays `n`, transfers `v`, and ends normally if that is refused. */
  function Transfers(n: u32, v: U256): Module {
    Paying(1, n, [TRANSFER], TransferMemory(v), Finish)
  }

  /** It succeeds exactly when the transfer is refused. */
  lemma TransfersSession(p: Prepared, n: u32, v: U256, storage: Storage)
    requires p.loaded == Transfers(n, v) && 0 < n <= p.env.gasLimit - INITIAL_MEM
    ensures if OwnBalance(p.env, storage) < v
            then Session(p, storage).Ok? && Session(p, storage).value.core.result == []
            else Session(p, storage) == Err(Wasm)
  {
    PayingSession(p, 1, n, [TRANSFER], TransferMemory(v), Finish, storage);
    TransferStep(p.env, n, v, storage);
  }

  /** The same, but it returns a byte if the transfer is refused. */
  function TransfersThenReturns(n: u32, v: U256): Module {
    Paying(1, n, [TRANSFER, Ret(52, 1)], TransferMemory(v), Finish)
  }

  lemma TransferAndReturnCovered(n: u32)
    requires n >= 11
    ensures Covers(n, [TRANSFER, Ret(52, 1)])
  {
    var calls := [TRANSFER, Ret(52, 1)];
    assert Toll([TRANSFER]) == 8 by { assert [TRANSFER][..0] == []; }
    assert Toll(calls) == 11 by { assert calls[..1] == [TRANSFER] && calls[1] == Ret(52, 1); }
  }

  lemma TransfersCommit(p: Prepared, n: u32, v: U256, storage: Storage)
    requires p.loaded == TransfersThenReturns(n, v) && 1 < n <= p.env.gasLimit - INITIAL_MEM
    ensures if OwnBalance(p.env, storage) < v
            then Session(p, storage).Ok? && Session(p, storage).value.core.result == [1]
            else Session(p, storage) == Err(Wasm)
  {
    var calls, memory := [TRANSFER, Ret(52, 1)], TransferMemory(v);
    PayingSession(p, 1, n, calls, memory, Finish, storage);
    FirstCallPlays(StepOf(p.env), Ready(1, n, memory, storage), calls);
    assert calls[1..] == [Ret(52, 1)];
    TransferStep(p.env, n, v, storage);
    var r := Step(p.env, Ready(1, n, memory, storage), TRANSFER);
    assert StepOf(p.env)(Ready(1, n, memory, storage), TRANSFER) == r;
    if r.outcome.Ok? {
      OneCallPlays(StepOf(p.env), r.machine, Ret(52, 1));
      ReturnStep(p.env, r.machine, v);
    }
  }

  lemma ReturnStep(env: Env, m: Machine, v: U256)
    requires m.core.memory == TransferMemory(v)
    ensures var r := Step(env, m, Ret(52, 1));
      r.outcome == Err(Return) && r.machine.core.result == [1]
  {
    assert Slice(TransferMemory(v), 52, 1) == [1];
  }

  // ----- reading back -----

  /** A contract with one page that pays `n`, reads the slot `key`, and returns what it was told. */
  function ReadsBack(n: u32, key: H256): Module {
    Paying(1, n, [StorageRead(0, 32), Ret(32, 32)], Page(key), Finish)
  }

  lemma ReadsBackCovered(n: u32)
    requires n >= 6
    ensures Covers(n, [StorageRead(0, 32), Ret(32, 32)])
  {
    var calls := [StorageRead(0, 32), Ret(32, 32)];
    assert Toll([StorageRead(0, 32)]) == 3 by { assert [StorageRead(0, 32)][..0] == []; }
    assert Toll(calls) == 6 by { assert calls[..1] == [StorageRead(0, 32)] && calls[1] == Ret(32, 32); }
  }

  /** What a `ret` of a word in memory returns. */
  lemma ReturnsWord(env: Env, m: Machine, ptr: u32, word: H256)
    requires ptr + 32 <= |m.core.memory| && m.core.memory[ptr..ptr + 32] == word
    ensures Step(env, m, Ret(ptr, 32)).outcome == Err(Return)
    ensures Step(env, m, Ret(ptr, 32)).machine.core.result == word
    ensures Step(env, m, Ret(ptr, 32)).machine.storage == m.storage
  {
    StepResultOnlyByRet(env, m, Ret(ptr, 32));
  }

  /** What a read leaves at 32 when its key is at 0. */
  lemma ReadsWord(env: Env, m: Machine, key: H256)
    requires LedgerHolds(env, m) && |m.core.memory| >= 64 && m.core.memory[0..32] == key
    requires m.core.gasCounter + 133 <= env.gasLimit
    ensures var r := Step(env, m, StorageRead(0, 32));
      && r.outcome.Ok? && |r.machine.core.memory| >= 64
      && r.machine.core.memory[32..64] == Seen(env, m.storage, key)
  {
    StorageReadEffect(env, m, 0, 32);
  }

  /** It returns what there was to see in the slot. */
  lemma ReadsBackSession(p: Prepared, n: u32, key: H256, storage: Storage)
    requires p.loaded == ReadsBack(n, key) && 2 <= n && INITIAL_MEM + n + 133 <= p.env.gasLimit
    ensures Session(p, storage).Ok?
    ensures Session(p, storage).value.core.result == Seen(p.env, storage, key)
  {
    var calls, m := [StorageRead(0, 32), Ret(32, 32)], Ready(1, n, Page(key), storage);
    PayingSession(p, 1, n, calls, Page(key), Finish, storage);
    FirstCallPlays(StepOf(p.env), m, calls);
    assert calls[1..] == [Ret(32, 32)];
    ReadyLedger(p.env, 1, n, Page(key), storage);
    assert m.core.memory[0..32] == key by { assert m.core.memory[..32] == key; }
    ReadsWord(p.env, m, key);
    var after := Step(p.env, m, StorageRead(0, 32)).machine;
    assert StepOf(p.env)(m, StorageRead(0, 32)).machine == after;
    OneCallPlays(StepOf(p.env), after, Ret(32, 32));
    ReturnsWord(p.env, after, 32, Seen(p.env, storage, key));
  }

  lemma ReadyLedger(env: Env, pages: u32, n: u32, memory: Bytes, storage: Storage)
    requires pages * INITIAL_MEM + n <= env.gasLimit
    ensures LedgerHolds(env, Ready(pages, n, memory, storage))
  {
    var first, charges := [Raw(pages * INITIAL_MEM)], [Raw(pages * INITIAL_MEM), Raw(n)];
    assert Total(first) == pages * INITIAL_MEM by { assert first[..0] == []; }
    assert charges[..1] == first;
  }
}
