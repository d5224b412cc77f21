/** What gas injection and the import resolver guarantee of every module they let through. */
module Realizability {
  import opened Types
  import opened Metering
  import opened HostMachine
  import opened Runs
  import opened Execution

  const PAGE_SIZE: nat := 0x1_0000
  const MAX_PAGES: nat := 16

  ghost predicate MeteredModule(loaded: Module) {
    && Metered(loaded.start)
    && forall h :: loaded.entry(h).Some? ==> Metered(loaded.entry(h).value)
  }

  /** How many operands a call takes; an instruction has to push each. */
  function Operands(call: HostCall): nat {
    match call
    case StorageRead(_, _) => 2
    case StorageWrite(_, _) => 2
    case Ret(_, _) => 2
    case Gas(_) => 1
    case Ccall(_, _, _, _, _, _, _) => 7
    case Elog(_, _, _, _) => 4
    case BlockHash(_, _) => 2
    case CopyOut(_, _) => 1
    case Ask(query) =>
      match query
      case InputLength => 0
      case BlockNumber => 0
      case Timestamp => 0
      case Debug(_, _) => 2
      case Difficulty(_) => 1
      case RaisePanic(_, _) => 2
      case NewContract(_, _, _, _) => 4
      case SelfDestruct(_) => 1
      case Dcall => 6
      case Scall => 6
  }

  /** Whether a call leaves a value, which can be an operand of a later one. */
  predicate Replies(call: HostCall) {
    call.Ccall? ||
    (call.Ask? && match call.query
                  case InputLength => true
                  case BlockNumber => true
                  case Timestamp => true
                  case NewContract(_, _, _, _) => true
                  case Dcall => true
                  case Scall => true
                  case _ => false)
  }

  /** The least number of instructions that make a call: the call, and one for each operand. Calls of
      `gas` are injected and are not instructions of the contract. */
  function Instructions(call: HostCall): nat {
    if call.Gas? then 0 else 1 + Operands(call)
  }

  /** The least number of instructions that have made `calls`, other than to provide what they left. */
  function Work(calls: seq<HostCall>): int {
    if calls == [] then 0 else
    var last := calls[|calls| - 1];
    Work(calls[..|calls| - 1]) + Instructions(last) - if Replies(last) then 1 else 0
  }

  /** The contract's memory is whole pages, between the initial ones and the maximum; the gas paid covers
      the pages added, the instructions so far and those that make `call`. */
  predicate MovePaid(memory: Bytes, call: HostCall, initial: nat, paid: nat, calls: seq<HostCall>) {
    && |memory| % PAGE_SIZE == 0
    && initial <= |memory| / PAGE_SIZE <= MAX_PAGES
    && GROW_MEM * (|memory| / PAGE_SIZE - initial) + Work(calls) + Instructions(call) <= paid + GasTotal(calls)
  }

  /** A contract that has paid `n` units can make a call with as much memory as this buys: whole pages, at
      most sixteen, at 8192 units for each one added, and the instructions of the call. */
  lemma FirstMovePaid(memory: Bytes, call: HostCall, initial: nat, n: u32)
    ensures MovePaid(memory, call, initial, 0, [Gas(n)]) <==>
      && |memory| % 65536 == 0 && 65536 * initial <= |memory| <= 1048576
      && 8192 * (|memory| / 65536 - initial) + Instructions(call) <= n
  {
    assert [Gas(n)][..0] == [];
    assert Work([Gas(n)]) == 0 && GasTotal([Gas(n)]) == n;
  }

  /** Every move of the contract is paid for beforehand; `paid` is what an earlier phase has paid. */
  ghost predicate Provided(s: Strategy, initial: nat, paid: nat) {
    forall h :: s(h).Invoke? ==> MovePaid(s(h).memory, s(h).call, initial, paid, Issued(s, h))
  }

  /** A module that some code can load as: host calls and memory are paid for beforehand. */
  ghost predicate Realizable(loaded: Module) {
    && MeteredModule(loaded) && loaded.pages <= MAX_PAGES
    && Provided(loaded.start, loaded.pages, 0)
    && forall h :: loaded.entry(h).Some? ==>
         Provided(loaded.entry(h).value, loaded.pages, GasTotal(Issued(loaded.start, h)))
  }

  ghost predicate RealizableLoader(load: Bytes -> Option<Module>) {
    forall code :: load(code).Some? ==> Realizable(load(code).value)
  }

  /** The least wasm gas with which a contract makes a call of so many operands on memory: a page, and the
      instructions of the call. */
  function GasToCall(operands: nat): nat {
    INITIAL_MEM + 1 + operands
  }

  const TRANSFER_GAS: nat := GasToCall(7)
  const RETURN_GAS: nat := GasToCall(2)

  // ----- contracts too poor to do much -----

  /** Within `budget` the contract has no memory, or calls with fewer than `k` operands. */
  ghost predicate Limited(s: Strategy, budget: int, k: nat) {
    forall h :: s(h).Invoke? && GasTotal(Issued(s, h)) <= budget ==>
      s(h).memory == [] || s(h).call.Gas? || Operands(s(h).call) < k
  }

  /** A contract limited to fewer operands than a `ccall` has compares nothing with a balance. */
  lemma {:induction false} LimitedUnbiased(env: Env, s: Strategy, base: nat, m: Machine, h: History, steps: nat)
    requires Limited(s, env.gasLimit - base, 7) && Accounted(s, h, m, base) && m.core.gasCounter <= env.gasLimit
    ensures Unbiased(env, s, m, h, steps)
    decreases steps
  {
    if Continues(StepOf(env), s, m, h) && steps > 0 {
      var r := Serve(StepOf(env), s, m, h);
      HostCollects(env);
      ToldAccounted(StepOf(env), env.gasLimit, s, m, h, base);
      LimitedUnbiased(env, s, base, r.machine, Told(h, r), steps - 1);
    }
  }

  /** Calls served by `step` that take fewer operands than a `ret`, or have no memory, return nothing. */
  ghost predicate Silent(step: Stepper) {
    forall m: Machine, call: HostCall ::
      m.core.result == [] && (m.core.memory == [] || call.Gas? || Operands(call) < 2) ==>
        step(m, call).machine.core.result == []
  }

  lemma HostSilent(env: Env)
    ensures Silent(StepOf(env))
  {
    forall m: Machine, call: HostCall
      | m.core.result == [] && (m.core.memory == [] || call.Gas? || Operands(call) < 2)
      ensures StepOf(env)(m, call).machine.core.result == []
    {
      StepResultOnlyByRet(env, m, call);
    }
  }

  lemma LimitedMove(s: Strategy, limit: nat, base: nat, m: Machine, h: History)
    requires Limited(s, limit - base, 2) && Accounted(s, h, m, base) && m.core.gasCounter <= limit && s(h).Invoke?
    ensures s(h).memory == [] || s(h).call.Gas? || Operands(s(h).call) < 2
  {
  }

  lemma SilentServe(step: Stepper, s: Strategy, m: Machine, h: History)
    requires Silent(step) && s(h).Invoke? && m.core.result == []
    requires s(h).memory == [] || s(h).call.Gas? || Operands(s(h).call) < 2
    ensures Serve(step, s, m, h).machine.core.result == []
  {
    assert Serve(step, s, m, h) == step(WithMemory(m, s(h).memory), s(h).call);
  }

  lemma LimitedServe(env: Env, s: Strategy, base: nat, m: Machine, h: History)
    requires s(h).Invoke? && m.core.result == []
    requires Limited(s, env.gasLimit - base, 2) && Accounted(s, h, m, base) && m.core.gasCounter <= env.gasLimit
    ensures var r := Serve(StepOf(env), s, m, h);
      && r.machine.core.result == []
      && (r.outcome.Ok? ==> Accounted(s, Told(h, r), r.machine, base) && r.machine.core.gasCounter <= env.gasLimit)
  {
    HostSilent(env);
    HostCollects(env);
    LimitedMove(s, env.gasLimit, base, m, h);
    SilentServe(StepOf(env), s, m, h);
    if Continues(StepOf(env), s, m, h) { ToldAccounted(StepOf(env), env.gasLimit, s, m, h, base); }
  }

  /** A contract limited to fewer operands than a `ret` has returns nothing. */
  lemma LimitedResult(env: Env, s: Strategy, base: nat, m: Machine, h: History, steps: nat)
    requires Limited(s, env.gasLimit - base, 2) && Accounted(s, h, m, base) && m.core.gasCounter <= env.gasLimit
    requires m.core.result == []
    ensures RunFrom(StepOf(env), s, m, h, steps).machine.core.result == []
  {
    ghost var inv := (n: Machine, g: History) =>
      Accounted(s, g, n, base) && n.core.gasCounter <= env.gasLimit && n.core.result == [];
    ghost var shown := (n: Machine) => n.core.result == [];
    assert StableAlong(StepOf(env), s, inv, shown) by {
      forall n: Machine, g: History | inv(n, g) && s(g).Invoke?
        ensures var r := Serve(StepOf(env), s, n, g);
          shown(r.machine) && (r.outcome.Ok? ==> inv(r.machine, Told(g, r)))
      {
        LimitedServe(env, s, base, n, g);
      }
    }
    RunKeepsAlong(StepOf(env), s, inv, shown, m, h, steps);
  }

  lemma {:induction false} WorkIsDone(calls: seq<HostCall>)
    ensures Work(calls) >= 0
  {
    if calls != [] { WorkIsDone(calls[..|calls| - 1]); }
  }

  lemma NoPages(memory: Bytes, call: HostCall, paid: nat, calls: seq<HostCall>)
    requires MovePaid(memory, call, 0, paid, calls) && paid + GasTotal(calls) < GROW_MEM
    ensures memory == []
  {
    WorkIsDone(calls);
    assert |memory| / PAGE_SIZE == 0;
  }

  lemma FewOperands(memory: Bytes, call: HostCall, initial: nat, paid: nat, calls: seq<HostCall>, k: nat)
    requires MovePaid(memory, call, initial, paid, calls) && paid + GasTotal(calls) <= k
    ensures call.Gas? || Operands(call) < k
  {
    WorkIsDone(calls);
  }

  /** With the gas for one page and `k` instructions more, or less, no call on memory has `k` operands. */
  lemma PoorLimited(p: Prepared, s: Strategy, paid: nat, spent: nat, k: nat)
    requires k < INITIAL_MEM && p.env.gasLimit < GasToCall(k)
    requires p.loaded.pages * INITIAL_MEM + paid <= spent <= p.env.gasLimit
    requires Provided(s, p.loaded.pages, paid)
    ensures Limited(s, p.env.gasLimit - spent, k)
  {
    forall h | s(h).Invoke? && GasTotal(Issued(s, h)) <= p.env.gasLimit - spent
      ensures s(h).memory == [] || s(h).call.Gas? || Operands(s(h).call) < k
    {
      if p.loaded.pages == 0 {
        NoPages(s(h).memory, s(h).call, paid, Issued(s, h));
      } else {
        FewOperands(s(h).memory, s(h).call, p.loaded.pages, paid, Issued(s, h), k);
      }
    }
  }
}
