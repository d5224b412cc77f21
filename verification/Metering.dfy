/** The gas schedule, and the ledger of what a run was charged. */
module Metering {
  import opened Types

  // Frontier schedule and default wasm costs.
  const SLOAD_GAS := 50
  const SSTORE_SET_GAS := 20000
  const SSTORE_RESET_GAS := 5000
  const LOG_GAS := 375
  const LOG_DATA_GAS := 8
  const LOG_TOPIC_GAS := 375
  const CALL_GAS := 40
  const BLOCKHASH_GAS := 20
  const STATIC_U256 := 64
  const STATIC_ADDRESS := 40
  const INITIAL_MEM := 4096
  const GROW_MEM := 8192
  const MEMCPY := 1
  const OPCODES_MUL := 3
  const OPCODES_DIV := 8

  /** A charge as requested: in wasm gas, or in nominal gas that is scaled to wasm gas. */
  datatype Charge = Raw(amount: nat) | Adjusted(nominal: nat)

  function ToWasmGas(nominal: nat): nat {
    nominal * OPCODES_DIV / OPCODES_MUL
  }

  function FromWasmGas(amount: nat): nat {
    amount * OPCODES_MUL / OPCODES_DIV
  }

  function Price(charge: Charge): nat {
    match charge
    case Raw(amount) => amount
    case Adjusted(nominal) => ToWasmGas(nominal)
  }

  function Total(charges: seq<Charge>): nat {
    if charges == [] then 0 else Total(charges[..|charges| - 1]) + Price(charges[|charges| - 1])
  }

  function RawTotal(charges: seq<Charge>): nat {
    if charges == [] then 0 else
    RawTotal(charges[..|charges| - 1]) + match charges[|charges| - 1] case Raw(a) => a case Adjusted(_) => 0
  }

  function NominalTotal(charges: seq<Charge>): nat {
    if charges == [] then 0 else
    NominalTotal(charges[..|charges| - 1]) + match charges[|charges| - 1] case Raw(_) => 0 case Adjusted(n) => n
  }

  function AdjustedCount(charges: seq<Charge>): nat {
    if charges == [] then 0 else
    AdjustedCount(charges[..|charges| - 1]) + match charges[|charges| - 1] case Raw(_) => 0 case Adjusted(_) => 1
  }

  /** `charge_gas` succeeds when the sum neither leaves 64 bits nor exceeds the limit. */
  predicate Affordable(counter: nat, limit: u64, amount: nat) {
    counter + amount < U64_LIMIT && counter + amount <= limit
  }

  /** Each scaled charge loses less than one unit to rounding. */
  lemma {:induction false} TotalBounds(charges: seq<Charge>)
    ensures 8 * NominalTotal(charges) + 3 * RawTotal(charges) - 2 * AdjustedCount(charges) <= 3 * Total(charges)
    ensures 3 * Total(charges) <= 8 * NominalTotal(charges) + 3 * RawTotal(charges)
  {
    if charges != [] {
      TotalBounds(charges[..|charges| - 1]);
    }
  }

  /** What the caller pays: the gas supplied less the gas handed back, in nominal gas. It differs
      from the nominal price of the run by rounding alone, whatever the order of the charges. */
  lemma MeteringError(gas: nat, charges: seq<Charge>, refund: nat)
    requires Total(charges) <= ToWasmGas(gas)
    requires refund == FromWasmGas(ToWasmGas(gas) - Total(charges))
    ensures refund <= gas
    ensures 8 * NominalTotal(charges) + 3 * RawTotal(charges) - 2 * AdjustedCount(charges) <= 8 * (gas - refund)
    ensures 8 * (gas - refund) <= 8 * NominalTotal(charges) + 3 * RawTotal(charges) + 9
  {
    TotalBounds(charges);
  }
}
