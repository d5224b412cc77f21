/** Whole runs. A contract is any strategy that picks its next move from the replies it has had so
    far, so it may depend on everything a host call tells it. Most facts about runs hold whatever a
    host call does, and are stated for an arbitrary step function. */
module Runs {
  import opened Types
  import opened Metering
  import opened HostMachine
  import opened HostEffects
  import opened Refinement

  datatype TrapKind =
    | UnreachableTrap
    | MemoryAccessTrap
    | TableAccessTrap
    | DivisionTrap
    | ConversionTrap
    | SignatureTrap
    | StackTrap

  /** A move that invokes the host carries the linear memory as the contract left it. */
  datatype Move =
    | Finish
    | Trap(kind: TrapKind)
    | Invoke(memory: Bytes, call: HostCall)

  datatype Reply = Reply(value: Option<int>, memory: Bytes)

  type History = seq<Reply>

  type Strategy = History -> Move

  /** What serves the host calls. */
  type Stepper = (Machine, HostCall) -> StepResult

  /** How a run ended; `Cut` if it made more calls than it was given steps. */
  datatype Ending =
    | Finished
    | Trapped(kind: TrapKind)
    | Stopped(error: Error)
    | Cut

  datatype Run = Run(machine: Machine, ending: Ending, history: History)

  function WithMemory(m: Machine, memory: Bytes): Machine {
    m.(core := m.core.(memory := memory))
  }

  /** Serving the call that `s` makes after `h`. */
  function Serve(step: Stepper, s: Strategy, m: Machine, h: History): StepResult
    requires s(h).Invoke?
  {
    step(WithMemory(m, s(h).memory), s(h).call)
  }

  predicate Continues(step: Stepper, s: Strategy, m: Machine, h: History) {
    s(h).Invoke? && Serve(step, s, m, h).outcome.Ok?
  }

  /** What the contract has been told after a successful call. */
  function Told(h: History, r: StepResult): History
    requires r.outcome.Ok?
  {
    h + [Reply(r.outcome.value, r.machine.core.memory)]
  }

  /** The run when the next move is its last. */
  function LastMove(step: Stepper, s: Strategy, m: Machine, h: History): Run
    requires !Continues(step, s, m, h)
  {
    match s(h)
    case Finish => Run(m, Finished, h)
    case Trap(kind) => Run(m, Trapped(kind), h)
    case Invoke(_, _) => Run(Serve(step, s, m, h).machine, Stopped(Serve(step, s, m, h).outcome.error), h)
  }

  /** The calls are served one by one; the first one that fails ends the run. */
  function RunFrom(step: Stepper, s: Strategy, m: Machine, h: History, steps: nat): Run
    decreases steps
  {
    if s(h).Invoke? && steps == 0 then Run(m, Cut, h)
    else if !Continues(step, s, m, h) then LastMove(step, s, m, h)
    else var r := Serve(step, s, m, h); RunFrom(step, s, r.machine, Told(h, r), steps - 1)
  }

  // ----- any step function -----

  /** A property that no call and no change of memory by the contract destroys. */
  ghost predicate Stable(step: Stepper, inv: Machine -> bool) {
    && (forall m: Machine, memory: Bytes :: inv(m) ==> inv(WithMemory(m, memory)))
    && (forall m: Machine, call: HostCall :: inv(m) ==> inv(step(m, call).machine))
  }

  /** Such a property holds at the end of a run if it holds at the start. */
  lemma {:induction false} RunKeeps(step: Stepper, inv: Machine -> bool, s: Strategy, m: Machine, h: History,
                                    steps: nat)
    requires Stable(step, inv) && inv(m)
    ensures inv(RunFrom(step, s, m, h, steps).machine)
    decreases steps
  {
    if Continues(step, s, m, h) && steps > 0 {
      var r := Serve(step, s, m, h);
      RunKeeps(step, inv, s, r.machine, Told(h, r), steps - 1);
    }
  }

  /** Whatever holds of machine and history, call after call, shows in the machine a run ends in. */
  ghost predicate StableAlong(step: Stepper, s: Strategy, inv: (Machine, History) -> bool, shown: Machine -> bool) {
    forall m: Machine, h: History :: inv(m, h) ==>
      && shown(m)
      && (s(h).Invoke? ==>
            var r := Serve(step, s, m, h);
            shown(r.machine) && (r.outcome.Ok? ==> inv(r.machine, Told(h, r))))
  }

  lemma {:induction false} RunKeepsAlong(step: Stepper, s: Strategy, inv: (Machine, History) -> bool,
                                         shown: Machine -> bool, m: Machine, h: History, steps: nat)
    requires StableAlong(step, s, inv, shown) && inv(m, h)
    ensures shown(RunFrom(step, s, m, h, steps).machine)
    decreases steps
  {
    if Continues(step, s, m, h) && steps > 0 {
      var r := Serve(step, s, m, h);
      RunKeepsAlong(step, s, inv, shown, r.machine, Told(h, r), steps - 1);
    }
  }

  /** A run that was not cut is the same run under every larger bound. */
  lemma {:induction false} MoreSteps(step: Stepper, s: Strategy, m: Machine, h: History, steps: nat, more: nat)
    requires RunFrom(step, s, m, h, steps).ending != Cut && steps <= more
    ensures RunFrom(step, s, m, h, more) == RunFrom(step, s, m, h, steps)
    decreases steps
  {
    if Continues(step, s, m, h) {
      var r := Serve(step, s, m, h);
      MoreSteps(step, s, r.machine, Told(h, r), steps - 1, more - 1);
    }
  }

  /** A run stops with an error exactly when the call its last move makes fails with it. */
  lemma {:induction false} StopsAtCall(step: Stepper, s: Strategy, m: Machine, h: History, steps: nat)
    ensures var run := RunFrom(step, s, m, h, steps);
      run.ending.Stopped? ==> s(run.history).Invoke? && exists n: Machine ::
        step(WithMemory(n, s(run.history).memory), s(run.history).call)
          == StepResult(run.machine, Err(run.ending.error))
    decreases steps
  {
    if Continues(step, s, m, h) && steps > 0 {
      var r := Serve(step, s, m, h);
      StopsAtCall(step, s, r.machine, Told(h, r), steps - 1);
    } else if s(h).Invoke? && steps > 0 {
      assert step(WithMemory(m, s(h).memory), s(h).call) == Serve(step, s, m, h);
    }
  }

  // ----- runs spelled out -----

  /** From the reply numbered `from` on, every call was served by the machine the one before left, and the
      contract was told its value and the memory it left. */
  ghost predicate Chained(step: Stepper, s: Strategy, states: seq<Machine>, history: History, from: nat) {
    && |states| + from == |history| + 1
    && forall i | from <= i < |history| ::
         Served(step, s(history[..i]), states[i - from], history[i], states[i - from + 1])
  }

  ghost predicate Served(step: Stepper, move: Move, before: Machine, reply: Reply, after: Machine) {
    && move.Invoke?
    && step(before.(core := before.core.(memory := move.memory)), move.call) == StepResult(after, Ok(reply.value))
    && reply.memory == after.core.memory
  }

  /** How the move after `history` ends a run of at most `steps` answered calls. */
  ghost predicate EndsBy(step: Stepper, move: Move, last: Machine, cut: bool, run: Run) {
    match move
    case Finish => run.machine == last && run.ending == Finished
    case Trap(kind) => run.machine == last && run.ending == Trapped(kind)
    case Invoke(memory, call) =>
      if cut then run.machine == last && run.ending == Cut
      else run.ending.Stopped?
           && step(last.(core := last.core.(memory := memory)), call) == StepResult(run.machine, Err(run.ending.error))
  }

  /** `run` goes through `states` after the replies in `h`, and ends as its last move says. */
  ghost predicate IsRun(step: Stepper, s: Strategy, states: seq<Machine>, h: History, steps: nat, run: Run) {
    && h <= run.history && |run.history| <= |h| + steps
    && Chained(step, s, states, run.history, |h|)
    && EndsBy(step, s(run.history), states[|states| - 1], |run.history| == |h| + steps, run)
  }

  lemma ChainGrows(step: Stepper, s: Strategy, m: Machine, h: History, states: seq<Machine>, history: History)
    requires Continues(step, s, m, h) && Told(h, Serve(step, s, m, h)) <= history
    requires Chained(step, s, states, history, |h| + 1) && states[0] == Serve(step, s, m, h).machine
    ensures Chained(step, s, [m] + states, history, |h|)
  {
    assert history[..|h|] == h;
    forall i | |h| <= i < |history|
      ensures Served(step, s(history[..i]), ([m] + states)[i - |h|], history[i], ([m] + states)[i - |h| + 1])
    {
      if i > |h| {
        assert Served(step, s(history[..i]), states[i - |h| - 1], history[i], states[i - |h|]);
      }
    }
  }

  /** Every run is such a chain of served calls. */
  lemma {:induction false} RunIs(step: Stepper, s: Strategy, m: Machine, h: History, steps: nat)
    returns (states: seq<Machine>)
    ensures states != [] && states[0] == m && IsRun(step, s, states, h, steps, RunFrom(step, s, m, h, steps))
    decreases steps
  {
    var run := RunFrom(step, s, m, h, steps);
    if Continues(step, s, m, h) && steps > 0 {
      var r := Serve(step, s, m, h);
      var rest := RunIs(step, s, r.machine, Told(h, r), steps - 1);
      ChainGrows(step, s, m, h, rest, run.history);
      states := [m] + rest;
    } else {
      states := [m];
    }
  }

  /** And there is no other such chain: the machine, the contract and the bound determine the run. */
  lemma {:induction false} RunIsUnique(step: Stepper, s: Strategy, states: seq<Machine>, h: History, steps: nat,
                                       run: Run)
    requires IsRun(step, s, states, h, steps, run)
    ensures run == RunFrom(step, s, states[0], h, steps)
    decreases steps
  {
    if |run.history| > |h| {
      assert run.history[..|h|] == h;
      assert Served(step, s(run.history[..|h|]), states[0], run.history[|h|], states[1]);
      var r := step(WithMemory(states[0], s(h).memory), s(h).call);
      assert Told(h, r) == run.history[..|h| + 1];
      forall i | |h| + 1 <= i < |run.history|
        ensures Served(step, s(run.history[..i]), states[1..][i - |h| - 1], run.history[i], states[1..][i - |h|])
      {
        assert Served(step, s(run.history[..i]), states[i - |h|], run.history[i], states[i - |h| + 1]);
      }
      RunIsUnique(step, s, states[1..], Told(h, r), steps - 1, run);
    } else {
      assert run.history == h;
    }
  }

  // ----- termination -----

  /** The calls made on the way to `h`. */
  function Issued(s: Strategy, h: History): seq<HostCall> {
    if h == [] then [] else
    var before := h[..|h| - 1];
    Issued(s, before) + match s(before) case Invoke(_, call) => [call] case _ => []
  }

  function GasOf(call: HostCall): nat {
    if call.Gas? then call.amount else 0
  }

  function GasTotal(calls: seq<HostCall>): nat {
    if calls == [] then 0 else GasTotal(calls[..|calls| - 1]) + GasOf(calls[|calls| - 1])
  }

  /** The calls that pay no gas by `gas`: every other call, and a `gas` call for nothing. */
  function OtherCalls(calls: seq<HostCall>): nat {
    if calls == [] then 0 else
    OtherCalls(calls[..|calls| - 1]) + if GasOf(calls[|calls| - 1]) > 0 then 0 else 1
  }

  /** What gas injection guarantees: the `gas` call that heads a block pays at least one unit for every
      instruction in it, so every call made in the block has been prepaid. */
  ghost predicate Metered(s: Strategy) {
    forall h :: OtherCalls(Issued(s, h)) <= GasTotal(Issued(s, h))
  }

  lemma {:induction false} CallsCost(calls: seq<HostCall>)
    ensures |calls| <= OtherCalls(calls) + GasTotal(calls)
  {
    if calls != [] { CallsCost(calls[..|calls| - 1]); }
  }

  /** As many calls as a metered run can make. */
  function StepBound(gasLimit: nat): nat {
    2 * gasLimit + 1
  }

  /** Calls served by `step` never lower the gas counter or raise it past `limit`, and a `gas` call that
      succeeds adds its amount. */
  ghost predicate Collects(step: Stepper, limit: nat) {
    forall m: Machine, call: HostCall :: m.core.gasCounter <= limit ==>
      var r := step(m, call);
      && m.core.gasCounter <= r.machine.core.gasCounter <= limit
      && (r.outcome.Ok? ==> m.core.gasCounter + GasOf(call) <= r.machine.core.gasCounter)
  }

  /** The calls that led to `h` were all answered, and their gas is in the counter, besides `base`. */
  ghost predicate Accounted(s: Strategy, h: History, m: Machine, base: nat) {
    |Issued(s, h)| == |h| && base + GasTotal(Issued(s, h)) <= m.core.gasCounter
  }

  lemma ToldAccounted(step: Stepper, limit: nat, s: Strategy, m: Machine, h: History, base: nat)
    requires Collects(step, limit) && Accounted(s, h, m, base) && m.core.gasCounter <= limit
    requires Continues(step, s, m, h)
    ensures var r := Serve(step, s, m, h);
      Accounted(s, Told(h, r), r.machine, base) && m.core.gasCounter <= r.machine.core.gasCounter <= limit
  {
    var r := Serve(step, s, m, h);
    assert Told(h, r)[..|h|] == h;
    assert Issued(s, Told(h, r)) == Issued(s, h) + [s(h).call];
    assert (Issued(s, h) + [s(h).call])[..|h|] == Issued(s, h);
    assert GasTotal(Issued(s, Told(h, r))) == GasTotal(Issued(s, h)) + GasOf(s(h).call);
    assert step(WithMemory(m, s(h).memory), s(h).call) == r;
  }

  lemma GasBoundsHistory(s: Strategy, h: History, m: Machine)
    requires Metered(s) && Accounted(s, h, m, 0)
    ensures |h| <= 2 * m.core.gasCounter
  {
    CallsCost(Issued(s, h));
  }

  lemma LastServed(step: Stepper, limit: nat, s: Strategy, m: Machine, h: History)
    requires Collects(step, limit) && m.core.gasCounter <= limit && !Continues(step, s, m, h)
    ensures m.core.gasCounter <= LastMove(step, s, m, h).machine.core.gasCounter <= limit
  {
    if s(h).Invoke? {
      assert step(WithMemory(m, s(h).memory), s(h).call) == Serve(step, s, m, h);
    }
  }

  /** What a run has paid by `gas` calls is in the counter when it ends, besides what was there before. */
  lemma {:induction false} RunAccounted(step: Stepper, limit: nat, s: Strategy, base: nat, m: Machine, h: History,
                                        steps: nat)
    requires Collects(step, limit) && Accounted(s, h, m, base) && m.core.gasCounter <= limit
    ensures var run := RunFrom(step, s, m, h, steps);
      base + GasTotal(Issued(s, run.history)) <= run.machine.core.gasCounter <= limit
    decreases steps
  {
    if !Continues(step, s, m, h) {
      LastServed(step, limit, s, m, h);
    } else if steps > 0 {
      var r := Serve(step, s, m, h);
      ToldAccounted(step, limit, s, m, h, base);
      RunAccounted(step, limit, s, base, r.machine, Told(h, r), steps - 1);
    }
  }

  /** Gas ends every metered run: it makes at most two calls per unit of gas, and is never cut. */
  lemma {:induction false} GasEndsRun(step: Stepper, limit: nat, s: Strategy, m: Machine, h: History, steps: nat)
    requires Metered(s) && Collects(step, limit) && Accounted(s, h, m, 0) && m.core.gasCounter <= limit
    requires |h| + steps >= StepBound(limit)
    ensures var run := RunFrom(step, s, m, h, steps);
      && run.ending != Cut
      && |run.history| <= 2 * run.machine.core.gasCounter <= 2 * limit
    decreases steps
  {
    GasBoundsHistory(s, h, m);
    if Continues(step, s, m, h) {
      var r := Serve(step, s, m, h);
      ToldAccounted(step, limit, s, m, h, 0);
      GasEndsRun(step, limit, s, r.machine, Told(h, r), steps - 1);
    } else {
      LastServed(step, limit, s, m, h);
    }
  }

  // ----- the host's step function -----

  function StepOf(env: Env): Stepper {
    (m, call) => Step(env, m, call)
  }

  lemma HostCollects(env: Env)
    ensures Collects(StepOf(env), env.gasLimit)
  {
    forall m: Machine, call: HostCall | m.core.gasCounter <= env.gasLimit
      ensures var r := StepOf(env)(m, call);
        && m.core.gasCounter <= r.machine.core.gasCounter <= env.gasLimit
        && (r.outcome.Ok? ==> m.core.gasCounter + GasOf(call) <= r.machine.core.gasCounter)
    {
      StepCollects(env, m, call);
    }
  }

  lemma StepCollects(env: Env, m: Machine, call: HostCall)
    requires m.core.gasCounter <= env.gasLimit
    ensures var r := Step(env, m, call);
      && m.core.gasCounter <= r.machine.core.gasCounter <= env.gasLimit
      && (r.outcome.Ok? ==> m.core.gasCounter + GasOf(call) <= r.machine.core.gasCounter)
  {
  }

  /** What holds of the machine behind the cache in every state of every run. */
  ghost predicate Healthy(env: Env, m: Machine) {
    && LedgerHolds(env, m)
    && LogsPaid(m)
    && m.storage.Cached? && RunCache(env, m.storage.entries)
    && StoragePaid(env, m.storage, m.core.gasCounter)
  }

  lemma StepHealthy(env: Env, m: Machine, call: HostCall)
    requires Healthy(env, m)
    ensures Healthy(env, Step(env, m, call).machine)
  {
    StepLedger(env, m, call);
    StepLogsPaid(env, m, call);
    StepStoragePaid(env, m, call);
    StepKeepsRunCache(env, m, call);
  }

  lemma RunHealthy(env: Env, s: Strategy, m: Machine, h: History, steps: nat)
    requires Healthy(env, m)
    ensures Healthy(env, RunFrom(StepOf(env), s, m, h, steps).machine)
  {
    ghost var inv := (n: Machine) => Healthy(env, n);
    forall n: Machine, call: HostCall | inv(n) ensures inv(StepOf(env)(n, call).machine) {
      StepHealthy(env, n, call);
    }
    RunKeeps(StepOf(env), inv, s, m, h, steps);
  }

  /** Over either storage: the ledger stays exact, and what was granted stays granted. */
  lemma RunLedger(env: Env, s: Strategy, m: Machine, h: History, steps: nat)
    requires LedgerHolds(env, m)
    ensures LedgerHolds(env, RunFrom(StepOf(env), s, m, h, steps).machine)
    ensures Grown(m, RunFrom(StepOf(env), s, m, h, steps).machine)
  {
    ghost var inv := (n: Machine) => LedgerHolds(env, n) && Grown(m, n);
    forall n: Machine, call: HostCall | inv(n) ensures inv(StepOf(env)(n, call).machine) {
      StepLedger(env, n, call);
    }
    RunKeeps(StepOf(env), inv, s, m, h, steps);
  }

  /** Only a call that fails with `Return` touches the result. */
  ghost predicate ResultOnlyByReturn(step: Stepper) {
    forall m: Machine, call: HostCall ::
      step(m, call).outcome != Err(Return) ==> step(m, call).machine.core.result == m.core.result
  }

  lemma HostResultOnlyByReturn(env: Env)
    ensures ResultOnlyByReturn(StepOf(env))
  {
    forall m: Machine, call: HostCall | StepOf(env)(m, call).outcome != Err(Return)
      ensures StepOf(env)(m, call).machine.core.result == m.core.result
    {
      StepResultOnlyByRet(env, m, call);
    }
  }

  lemma {:induction false} ResultUntouched(step: Stepper, s: Strategy, m: Machine, h: History, steps: nat)
    requires ResultOnlyByReturn(step)
    ensures var run := RunFrom(step, s, m, h, steps);
      run.ending != Stopped(Return) ==> run.machine.core.result == m.core.result
    decreases steps
  {
    if s(h).Invoke? && steps > 0 {
      var r := Serve(step, s, m, h);
      assert r == step(WithMemory(m, s(h).memory), s(h).call);
      if r.outcome.Ok? { ResultUntouched(step, s, r.machine, Told(h, r), steps - 1); }
    }
  }

  /** The result stays as it was until a `ret`, and a `ret` is the last call of its run. */
  lemma RunResult(env: Env, s: Strategy, m: Machine, h: History, steps: nat)
    ensures var run := RunFrom(StepOf(env), s, m, h, steps);
      && (run.ending != Stopped(Return) ==> run.machine.core.result == m.core.result)
      && run.ending != Stopped(Suicide)
      && (run.ending == Stopped(Return) ==>
            match s(run.history)
            case Invoke(memory, Ret(ptr, len)) =>
              ptr + len <= |memory| && run.machine.core.result == memory[ptr..ptr + len]
            case _ => false)
  {
    HostResultOnlyByReturn(env);
    ResultUntouched(StepOf(env), s, m, h, steps);
    StopsAtCall(StepOf(env), s, m, h, steps);
    var run := RunFrom(StepOf(env), s, m, h, steps);
    if run.ending.Stopped? {
      var move := s(run.history);
      var n: Machine :|
        StepOf(env)(WithMemory(n, move.memory), move.call) == StepResult(run.machine, Err(run.ending.error));
      StepResultOnlyByRet(env, WithMemory(n, move.memory), move.call);
    }
  }

  /** A run panics exactly when its last call is one that no run survives, and is not refused for want
      of gas instead. */
  lemma RunPanicsExactly(env: Env, s: Strategy, m: Machine, h: History, steps: nat)
    ensures var run := RunFrom(StepOf(env), s, m, h, steps);
      run.ending == Stopped(HostPanic) <==>
        && run.ending.Stopped? && run.ending != Stopped(GasLimit)
        && s(run.history).Invoke? && Panics(env, s(run.history).call)
  {
    var run := RunFrom(StepOf(env), s, m, h, steps);
    StopsAtCall(StepOf(env), s, m, h, steps);
    if run.ending.Stopped? {
      var move := s(run.history);
      var n: Machine :|
        StepOf(env)(WithMemory(n, move.memory), move.call) == StepResult(run.machine, Err(run.ending.error));
      StepPanicsExactly(env, WithMemory(n, move.memory), move.call);
    }
  }

  /** No call of the run tells the stored balance from the true one. */
  ghost predicate Unbiased(env: Env, s: Strategy, m: Machine, h: History, steps: nat)
    decreases steps
  {
    s(h).Invoke? && steps > 0 ==>
      && !Discriminates(env, s(h).memory, s(h).call)
      && (Continues(StepOf(env), s, m, h) ==>
            var r := Serve(StepOf(env), s, m, h); Unbiased(env, s, r.machine, Told(h, r), steps - 1))
  }

  /** Where the two balances agree, or the contract makes no `ccall`, nothing can tell them apart. */
  lemma {:induction false} UnbiasedWhenBalanced(env: Env, s: Strategy, m: Machine, h: History, steps: nat)
    requires StoredBalance(env.world, env.params.address) == TrueBalance(env.world, env.params.address)
             || forall g :: s(g).Invoke? ==> !s(g).call.Ccall?
    ensures Unbiased(env, s, m, h, steps)
    decreases steps
  {
    if Continues(StepOf(env), s, m, h) && steps > 0 {
      var r := Serve(StepOf(env), s, m, h);
      UnbiasedWhenBalanced(env, s, r.machine, Told(h, r), steps - 1);
    }
  }

  /** Over the cache and over the snapshot a contract makes the same moves, gets the same replies
      and ends the same way with the same gas, memory, result and logs. */
  lemma {:induction false} RunRefines(env: Env, s: Strategy, m: Machine, n: Machine, h: History, steps: nat)
    requires Same(env, m, n) && Unbiased(env, s, n, h, steps)
    ensures var r, q := RunFrom(StepOf(env), s, m, h, steps), RunFrom(StepOf(env), s, n, h, steps);
      r.ending == q.ending && r.history == q.history && Same(env, r.machine, q.machine)
    decreases steps
  {
    if s(h).Invoke? && steps > 0 {
      var memory, call := s(h).memory, s(h).call;
      StepRefines(env, WithMemory(m, memory), WithMemory(n, memory), call);
      var r, q := Serve(StepOf(env), s, m, h), Serve(StepOf(env), s, n, h);
      if r.outcome.Ok? { RunRefines(env, s, r.machine, q.machine, Told(h, r), steps - 1); }
    }
  }

  /** What the answered calls of a run are charged, in order. */
  function Billed(env: Env, s: Strategy, m: Machine, h: History, steps: nat): seq<Charge>
    decreases steps
  {
    if steps == 0 || !Continues(StepOf(env), s, m, h) then [] else
    var r := Serve(StepOf(env), s, m, h);
    ChargesFor(env, WithMemory(m, s(h).memory), s(h).call)
      + Billed(env, s, r.machine, Told(h, r), steps - 1)
  }

  /** A run that does not fail has been charged for the calls it made, and for nothing else. */
  lemma {:induction false} RunCharges(env: Env, s: Strategy, m: Machine, h: History, steps: nat)
    requires var ending := RunFrom(StepOf(env), s, m, h, steps).ending;
      ending.Stopped? ==> ending == Stopped(Return)
    ensures RunFrom(StepOf(env), s, m, h, steps).machine.core.charges
         == m.core.charges + Billed(env, s, m, h, steps)
    decreases steps
  {
    if s(h).Invoke? && steps > 0 {
      var r := Serve(StepOf(env), s, m, h);
      StepCharges(env, WithMemory(m, s(h).memory), s(h).call);
      if r.outcome.Ok? {
        RunCharges(env, s, r.machine, Told(h, r), steps - 1);
      } else {
        StepResultOnlyByRet(env, WithMemory(m, s(h).memory), s(h).call);
      }
    }
  }
}
