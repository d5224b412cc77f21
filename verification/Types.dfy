/** Fixed-width values, results and the records passed between the components. */
module Types {

  type Byte = b: int | 0 <= b < 0x100
  type Bytes = seq<Byte>

  const U32_LIMIT: int := 0x1_0000_0000
  const U64_LIMIT: int := 0x1_0000_0000_0000_0000
  const U256_LIMIT: int := 0x1_0000000000000000_0000000000000000_0000000000000000_0000000000000000

  type u32 = n: int | 0 <= n < U32_LIMIT
  type u64 = n: int | 0 <= n < U64_LIMIT
  type U256 = n: int | 0 <= n < U256_LIMIT

  function Zeros(n: nat): (b: Bytes)
    ensures |b| == n
    ensures forall i | 0 <= i < n :: b[i] == 0
  {
    if n == 0 then [] else [0] + Zeros(n - 1)
  }

  type Address = b: Bytes | |b| == 20 witness Zeros(20)
  type H256 = b: Bytes | |b| == 32 witness Zeros(32)

  const ZERO_HASH: H256 := Zeros(32)

  datatype Option<+T> = None | Some(value: T)

  datatype Result<+T> = Ok(value: T) | Err(error: Error)

  /** The error kinds the modelled code produces. `HostPanic` stands for an unwinding panic
      (a failed `unwrap` or a checked-arithmetic overflow), which no modelled code catches. */
  datatype Error =
    | InvalidAddress(address: Address)
    | InvalidStorageKey(key: H256)
    | Wasm
    | MemoryAccessViolation
    | GasLimit
    | Return
    | Suicide
    | Panic
    | Log
    | Unreachable
    | InvalidVirtualCall
    | DivisionByZero
    | InvalidConversionToInt
    | StackOverflow
    | NotSupported
    | InvalidGasState
    | Other
    | HostPanic

  datatype Action =
    | Create(code: Bytes, salt: H256)
    | Call(address: Address)

  datatype Transaction = Transaction(
    sender: Address, value: U256, gas: U256, gasPrice: U256, action: Action, args: Bytes)

  datatype LogEntry = LogEntry(address: Address, topics: seq<H256>, data: Bytes)

  datatype ResultData = ResultData(gasLeft: U256, data: Bytes, contract: Address, logs: seq<LogEntry>)

  /** The part of `ActionParams` that execution reads. */
  datatype ActionParams = ActionParams(
    address: Address, sender: Address, origin: Address, gas: U256, value: U256, code: Bytes, args: Bytes)

  type Slots = map<H256, H256>

  /** What a contract can ask about the chain: the hash of every block so far, and the author. */
  datatype BlockInfo = BlockInfo(hashes: seq<H256>, author: Address)

  /** An account as the provider shows it to anyone who knows its address. */
  datatype Record = Record(nonce: U256, balance: U256, code: Bytes, storage: Slots)

  type World = map<Address, Record>

  /** What reading `key` yields when an absent slot counts as zero. */
  function ReadSlot(slots: Slots, key: H256): H256 {
    if key in slots then slots[key] else ZERO_HASH
  }

  /** The storage of `address`, empty when there is no such account. */
  function StorageOf(world: World, address: Address): Slots {
    if address in world then world[address].storage else map[]
  }
}
