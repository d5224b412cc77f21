/** The byte strings that are hashed into contract addresses and transaction hashes.
    The hash itself is a parameter, `keccak`. */
module Preimages {
  import opened Types
  import opened Numbers

  type Hasher = Bytes -> H256

  /** The byte layout of EIP-1014: a constant, the sender, the salt and the hash of the code. */
  function AddressPreimage(sender: Address, salt: H256, codeHash: H256): Bytes {
    [0xff] + sender + salt + codeHash
  }

  /** `copy_from_slice` into `buffer[offset..offset + |source|]`. */
  method CopyFromSlice(buffer: array<Byte>, offset: nat, source: Bytes)
    requires offset + |source| <= buffer.Length
    modifies buffer
    ensures buffer[..] == old(buffer[..offset]) + source + old(buffer[offset + |source|..])
  {
    forall i | 0 <= i < |source| {
      buffer[offset + i] := source[i];
    }
  }

  /** The low-order twenty bytes of a hash. */
  function TruncateToAddress(hash: H256): Address {
    hash[12..]
  }

  /** The address at which `sender` deploys `code` with `salt`. */
  method ContractAddress(keccak: Hasher, sender: Address, code: Bytes, salt: H256) returns (address: Address)
    ensures address == TruncateToAddress(keccak(AddressPreimage(sender, salt, keccak(code))))
  {
    var codeHash := keccak(code);
    var buffer := new Byte[1 + 20 + 32 + 32](_ => 0);
    buffer[0] := 0xff;
    CopyFromSlice(buffer, 1, sender);
    CopyFromSlice(buffer, 1 + 20, salt);
    CopyFromSlice(buffer, 1 + 20 + 32, codeHash);
    assert buffer[..] == AddressPreimage(sender, salt, codeHash);
    address := TruncateToAddress(keccak(buffer[..]));
  }

  lemma AddressPreimageInjective(sender: Address, salt: H256, hash: H256,
                                 sender': Address, salt': H256, hash': H256)
    ensures |AddressPreimage(sender, salt, hash)| == 85
    ensures AddressPreimage(sender, salt, hash) == AddressPreimage(sender', salt', hash')
       <==> sender == sender' && salt == salt' && hash == hash'
  {
    var p, p' := AddressPreimage(sender, salt, hash), AddressPreimage(sender', salt', hash');
    assert p[1..21] == sender && p[21..53] == salt && p[53..] == hash;
    assert p'[1..21] == sender' && p'[21..53] == salt' && p'[53..] == hash';
  }

  /** Where everything is in the 85 bytes. */
  lemma AddressLayout(sender: Address, salt: H256, codeHash: H256)
    ensures var p := AddressPreimage(sender, salt, codeHash);
      |p| == 85 && p[0] == 0xff && p[1..21] == sender && p[21..53] == salt && p[53..85] == codeHash
  {
  }

  /** The first twelve bytes of the hash are dropped. */
  lemma TruncateAt(hash: H256, i: nat)
    requires i < 20
    ensures TruncateToAddress(hash)[i] == hash[12 + i]
  {
  }

  /** The part of the transaction preimage that has a fixed width. */
  function Head(tx: Transaction): (h: Bytes)
    ensures |h| == 116
  {
    tx.sender + LittleEndian(tx.value, 32) + LittleEndian(tx.gas, 32) + LittleEndian(tx.gasPrice, 32)
  }

  /** The action without its tag, directly followed by the arguments. */
  function Body(tx: Transaction): Bytes {
    match tx.action
    case Create(code, salt) => code + salt + tx.args
    case Call(address) => address + tx.args
  }

  function TransactionPreimage(tx: Transaction): Bytes {
    Head(tx) + Body(tx)
  }

  method TransactionHash(keccak: Hasher, tx: Transaction) returns (hash: H256)
    ensures hash == keccak(TransactionPreimage(tx))
  {
    var bytes: Bytes := [];
    bytes := bytes + tx.sender;
    var tmp := LittleEndian(tx.value, 32);
    bytes := bytes + tmp;
    tmp := LittleEndian(tx.gas, 32);
    bytes := bytes + tmp;
    tmp := LittleEndian(tx.gasPrice, 32);
    bytes := bytes + tmp;
    match tx.action {
      case Create(code, salt) =>
        bytes := bytes + code;
        bytes := bytes + salt;
      case Call(address) =>
        bytes := bytes + address;
    }
    bytes := bytes + tx.args;
    assert bytes == TransactionPreimage(tx);
    hash := keccak(bytes);
  }

  lemma HeadInjective(t: Transaction, u: Transaction)
    requires Head(t) == Head(u)
    ensures t.sender == u.sender && t.value == u.value && t.gas == u.gas && t.gasPrice == u.gasPrice
  {
    HeadParts(t);
    HeadParts(u);
    LittleEndianWord(t.value);
    LittleEndianWord(u.value);
    LittleEndianWord(t.gas);
    LittleEndianWord(u.gas);
    LittleEndianWord(t.gasPrice);
    LittleEndianWord(u.gasPrice);
  }

  lemma HeadParts(t: Transaction)
    ensures Head(t)[..20] == t.sender
    ensures Head(t)[20..52] == LittleEndian(t.value, 32)
    ensures Head(t)[52..84] == LittleEndian(t.gas, 32)
    ensures Head(t)[84..] == LittleEndian(t.gasPrice, 32)
  {
  }

  /** Where everything is: the sender, three words with the least significant byte first, then for a create
      the code and the salt, for a call the address, and the arguments at the end. */
  lemma TransactionLayout(tx: Transaction, i: nat)
    requires i < 32
    ensures var p := TransactionPreimage(tx);
      && |p| >= 116 && p[..20] == tx.sender
      && p[20 + i] == tx.value / Pow256(i) % 256
      && p[52 + i] == tx.gas / Pow256(i) % 256
      && p[84 + i] == tx.gasPrice / Pow256(i) % 256
      && p[116..] == match tx.action
                     case Create(code, salt) => code + salt + tx.args
                     case Call(address) => address + tx.args
  {
    HeadParts(tx);
    LittleEndianAt(tx.value, 32, i);
    LittleEndianAt(tx.gas, 32, i);
    LittleEndianAt(tx.gasPrice, 32, i);
    assert Head(tx)[20..52][i] == Head(tx)[20 + i] && Head(tx)[52..84][i] == Head(tx)[52 + i];
    assert Head(tx)[84..][i] == Head(tx)[84 + i];
  }

  lemma PreimageParts(t: Transaction, u: Transaction)
    requires TransactionPreimage(t) == TransactionPreimage(u)
    ensures Head(t) == Head(u) && Body(t) == Body(u)
  {
    assert TransactionPreimage(t)[..116] == Head(t) && TransactionPreimage(t)[116..] == Body(t);
    assert TransactionPreimage(u)[..116] == Head(u) && TransactionPreimage(u)[116..] == Body(u);
  }

  /** What the preimage does not record: which action it is, and where the code ends. */
  datatype Shape = CallShape | CreateShape(codeLength: nat)

  function ShapeOf(tx: Transaction): Shape {
    match tx.action
    case Create(code, _) => CreateShape(|code|)
    case Call(_) => CallShape
  }

  lemma PreimageInjective(t: Transaction, u: Transaction)
    requires ShapeOf(t) == ShapeOf(u)
    requires TransactionPreimage(t) == TransactionPreimage(u)
    ensures t == u
  {
    PreimageParts(t, u);
    HeadInjective(t, u);
    BodyParts(t);
    BodyParts(u);
  }

  lemma BodyParts(t: Transaction)
    ensures match t.action
            case Create(code, salt) =>
              var n := |code|;
              |Body(t)| >= n + 32 && Body(t)[..n] == code && Body(t)[n..n + 32] == salt && Body(t)[n + 32..] == t.args
            case Call(address) =>
              |Body(t)| >= 20 && Body(t)[..20] == address && Body(t)[20..] == t.args
  {
  }

  /** Transactions of shapes `s` and `u` with one preimage are one transaction. */
  ghost predicate Separated(s: Shape, u: Shape) {
    forall t, t' | ShapeOf(t) == s && ShapeOf(t') == u && TransactionPreimage(t) == TransactionPreimage(t') :: t == t'
  }

  /** A transaction of shape `shape` whose body is `padding` zero bytes longer than the shape needs. */
  function ZeroTransaction(shape: Shape, padding: nat): (tx: Transaction)
    ensures ShapeOf(tx) == shape
  {
    var action := if shape.CallShape? then Call(Zeros(20)) else Create(Zeros(shape.codeLength), ZERO_HASH);
    Transaction(Zeros(20), 0, 0, 0, action, Zeros(padding))
  }

  function BodyWidth(shape: Shape): nat {
    if shape.CallShape? then 20 else shape.codeLength + 32
  }

  lemma ZeroBody(shape: Shape, padding: nat)
    ensures Body(ZeroTransaction(shape, padding)) == Zeros(BodyWidth(shape) + padding)
  {
  }

  /** The preimage determines the transaction within one shape, and between no two shapes. */
  lemma PreimageSeparates(s: Shape, u: Shape)
    ensures Separated(s, u) <==> s == u
  {
    if s == u {
      forall t, t' | ShapeOf(t) == s && ShapeOf(t') == u && TransactionPreimage(t) == TransactionPreimage(t')
        ensures t == t'
      {
        PreimageInjective(t, t');
      }
    } else {
      var t, t' := ZeroTransaction(s, BodyWidth(u)), ZeroTransaction(u, BodyWidth(s));
      ZeroBody(s, BodyWidth(u));
      ZeroBody(u, BodyWidth(s));
      assert TransactionPreimage(t) == TransactionPreimage(t');
      assert ShapeOf(t) != ShapeOf(t');
    }
  }
}
