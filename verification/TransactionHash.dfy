/**
  Transaction hashes.

  A hash is a free term: two hashes are equal only if they were built the same way. So a statement about
  equal hashes is a statement about the encoding in front of the hash function, which is what the code
  here is responsible for.
 */
module TransactionHash {
  import opened Primitives
  import opened Bytes

  datatype Term =
    | Felt(value: nat)
    | Pedersen(left: Term, right: Term)
    | Poseidon(elements: seq<Term>)
    | ContractAddress(preimage: Term)
    | Keccak(text: string)
    | TrieRoot(leaves: seq<Term>)

  /** The hasher of the outermost hash; the inner ones are always Pedersen chains. */
  datatype Hasher = PedersenHasher | PoseidonHasher

  // ----- Hash chains

  function Chain(elements: seq<Term>): Term {
    if elements == [] then Felt(0) else Pedersen(Chain(elements[..|elements| - 1]), elements[|elements| - 1])
  }

  /** h(h(...h(h(0, e0), e1)..., en-1), n) */
  function HashChain(elements: seq<Term>): Term {
    Pedersen(Chain(elements), Felt(|elements|))
  }

  function HashOnElements(h: Hasher, elements: seq<Term>): Term {
    match h
    case PedersenHasher => HashChain(elements)
    case PoseidonHasher => Poseidon(elements)
  }

  lemma {:induction false} ChainInjective(a: seq<Term>, b: seq<Term>)
    requires |a| == |b| && Chain(a) == Chain(b)
    ensures a == b
  {
    if a != [] {
      ChainInjective(a[..|a| - 1], b[..|b| - 1]);
      assert a == a[..|a| - 1] + [a[|a| - 1]] && b == b[..|b| - 1] + [b[|b| - 1]];
    }
  }

  /** The appended length makes the chain injective over lists of all lengths. */
  lemma HashInjective(h: Hasher, a: seq<Term>, b: seq<Term>)
    ensures HashOnElements(h, a) == HashOnElements(h, b) <==> a == b
  {
    if h.PedersenHasher? && HashChain(a) == HashChain(b) {
      ChainInjective(a, b);
    }
  }

  function Felts(xs: seq<Felt>): (r: seq<Term>)
    ensures |r| == |xs| && forall k | 0 <= k < |xs| :: r[k] == Felt(xs[k])
  {
    seq(|xs|, k requires 0 <= k < |xs| => Felt(xs[k]))
  }

  lemma HashOfFeltsInjective(a: seq<Felt>, b: seq<Felt>)
    requires HashChain(Felts(a)) == HashChain(Felts(b))
    ensures a == b
  {
    HashInjective(PedersenHasher, Felts(a), Felts(b));
    assert forall k | 0 <= k < |a| :: Felts(a)[k] == Felts(b)[k];
  }

  // ----- Packing resource bounds and availability modes into one field element

  datatype Resource = L1Gas | L2Gas

  datatype ResourceBounds = ResourceBounds(maxAmount: U64, maxPricePerUnit: U128)

  type ResourceBoundsMapping = map<Resource, ResourceBounds>

  datatype DataAvailabilityMode = L1 | L2

  const TWO_128: nat := 0x1_0000_0000_0000_0000_0000_0000_0000_0000
  const TWO_160: nat := 0x1_0000_0000_0000_0000_0000_0000_0000_0000_0000_0000
  const TWO_192: nat := 0x1_0000_0000_0000_0000_0000_0000_0000_0000_0000_0000_0000_0000

  function ResourceName(r: Resource): (bs: seq<Byte>)
    ensures |bs| == 6
  {
    match r
    case L1Gas => TextBytes("L1_GAS")
    case L2Gas => TextBytes("L2_GAS")
  }

  function BoundsOf(m: ResourceBoundsMapping, r: Resource): ResourceBounds {
    if r in m then m[r] else ResourceBounds(0, 0)
  }

  function ResourceValue(m: ResourceBoundsMapping, r: Resource): nat {
    FromBytes(ResourceName(r)) * TWO_192 + BoundsOf(m, r).maxAmount * TWO_128 + BoundsOf(m, r).maxPricePerUnit
  }

  function ModeValue(mode: DataAvailabilityMode): U32 {
    match mode
    case L1 => 0
    case L2 => 1
  }

  function ModesValue(nonceMode: DataAvailabilityMode, feeMode: DataAvailabilityMode): nat {
    ModeValue(nonceMode) * TWO_160 + ModeValue(feeMode) * TWO_128
  }

  lemma ResourceValueInjective(a: ResourceBoundsMapping, b: ResourceBoundsMapping, r: Resource)
    requires ResourceValue(a, r) == ResourceValue(b, r)
    ensures BoundsOf(a, r) == BoundsOf(b, r)
  {
    var x, y := BoundsOf(a, r), BoundsOf(b, r);
    assert x.maxAmount * TWO_128 + x.maxPricePerUnit == y.maxAmount * TWO_128 + y.maxPricePerUnit;
  }

  /** The number read back from the buffer always fits the field. */
  method PrepareResourceBoundValue(m: ResourceBoundsMapping, resource: Resource) returns (f: FieldElement)
    ensures f == ResourceValue(m, resource)
  {
    var name := ResourceName(resource);
    var bounds := if resource in m then Some(m[resource]) else None;
    var buffer := WriteResourceBound(name, bounds);
    PackedResource(name, BoundsOf(m, resource).maxAmount, BoundsOf(m, resource).maxPricePerUnit);
    f := FromBytes(buffer[..]);
  }

  /** Writes name, amount and price into a fresh buffer; a missing bound leaves its bytes as they are. */
  method WriteResourceBound(name: seq<Byte>, bounds: Option<ResourceBounds>) returns (buffer: array<Byte>)
    requires |name| == 6
    ensures buffer[..]
         == if bounds.Some? then ResourceBuffer(name, bounds.value.maxAmount, bounds.value.maxPricePerUnit)
            else ResourceBuffer(name, 0, 0)
  {
    buffer := new Byte[32](_ => 0);
    assert buffer[..] == Zeros(32);
    CopyFromSlice(buffer, 2, name);
    if bounds.Some? {
      CopyFromSlice(buffer, 8, ToBytes(bounds.value.maxAmount, 8));
      CopyFromSlice(buffer, 16, ToBytes(bounds.value.maxPricePerUnit, 16));
    } else {
      NothingSpliced(name);
    }
  }

  /** The buffer after writing name, amount and price. */
  function ResourceBuffer(name: seq<Byte>, amount: U64, price: U128): seq<Byte>
    requires |name| == 6
  {
    Splice(Splice(Splice(Zeros(32), 2, name), 8, ToBytes(amount, 8)), 16, ToBytes(price, 16))
  }

  lemma NothingSpliced(name: seq<Byte>)
    requires |name| == 6
    ensures ResourceBuffer(name, 0, 0) == Splice(Zeros(32), 2, name)
  {
    ZeroBytes(8);
    ZeroBytes(16);
  }

  lemma {:induction false} ZeroBytes(len: nat)
    ensures ToBytes(0, len) == Zeros(len)
  {
    if len > 0 {
      ZeroBytes(len - 1);
      assert Zeros(len) == Zeros(len - 1) + [0];
    }
  }

  lemma SplicedResource(name: seq<Byte>, a: seq<Byte>, p: seq<Byte>)
    requires |name| == 6 && |a| == 8 && |p| == 16
    ensures Splice(Splice(Splice(Zeros(32), 2, name), 8, a), 16, p) == Zeros(2) + name + a + p
  {
    var b1 := Splice(Zeros(32), 2, name);
    assert b1[..8] == Zeros(2) + name;
    var b2 := Splice(b1, 8, a);
    assert b2[..16] == Zeros(2) + name + a;
  }

  lemma SplicedModes(n: seq<Byte>, m: seq<Byte>)
    requires |n| == 4 && |m| == 4
    ensures Splice(Splice(Zeros(32), 8, n), 12, m) == Zeros(8) + n + m + Zeros(16)
  {
    var b1 := Splice(Zeros(32), 8, n);
    assert b1[..12] == Zeros(8) + n && b1[16..] == Zeros(16);
  }

  lemma PackedResource(name: seq<Byte>, amount: U64, price: U128)
    requires |name| == 6
    ensures FromBytes(ResourceBuffer(name, amount, price))
         == FromBytes(name) * TWO_192 + amount * TWO_128 + price < PRIME
  {
    Powers();
    FromZeros(2);
    FromConcat(Zeros(2), name);
    FromBytesBound(name);
    assert Pow256(6) == 0x1_0000_0000_0000;
    FromToBytes(amount, 8);
    FromToBytes(price, 16);
    FromConcat(Zeros(2) + name, ToBytes(amount, 8));
    FromConcat(Zeros(2) + name + ToBytes(amount, 8), ToBytes(price, 16));
    SplicedResource(name, ToBytes(amount, 8), ToBytes(price, 16));
  }

  method PrepareDataAvailabilityModes(nonceMode: DataAvailabilityMode, feeMode: DataAvailabilityMode)
    returns (f: FieldElement)
    ensures f == ModesValue(nonceMode, feeMode)
  {
    var buffer := new Byte[32](_ => 0);
    assert buffer[..] == Zeros(32);
    CopyFromSlice(buffer, 8, ToBytes(ModeValue(nonceMode), 4));
    CopyFromSlice(buffer, 12, ToBytes(ModeValue(feeMode), 4));
    SplicedModes(ToBytes(ModeValue(nonceMode), 4), ToBytes(ModeValue(feeMode), 4));
    PackedModes(ModeValue(nonceMode), ModeValue(feeMode));
    f := FromBytes(buffer[..]);
  }

  lemma PackedModes(n: U32, m: U32)
    requires n <= 1 && m <= 1
    ensures FromBytes(Zeros(8) + ToBytes(n, 4) + ToBytes(m, 4) + Zeros(16)) == n * TWO_160 + m * TWO_128 < PRIME
  {
    Powers();
    FromZeros(8);
    FromZeros(16);
    FromToBytes(n, 4);
    FromToBytes(m, 4);
    FromConcat(Zeros(8), ToBytes(n, 4));
    FromConcat(Zeros(8) + ToBytes(n, 4), ToBytes(m, 4));
    FromConcat(Zeros(8) + ToBytes(n, 4) + ToBytes(m, 4), Zeros(16));
  }

  // ----- Transactions

  datatype Transaction =
    | InvokeV0(maxFee: U128, signature: seq<Felt>, contractAddress: Felt, entryPointSelector: Felt, calldata: seq<Felt>)
    | InvokeV1(maxFee: U128, signature: seq<Felt>, nonce: Felt, senderAddress: Felt, calldata: seq<Felt>)
    | InvokeV3(resourceBounds: ResourceBoundsMapping, tip: U64, signature: seq<Felt>, nonce: Felt,
               senderAddress: Felt, calldata: seq<Felt>, nonceMode: DataAvailabilityMode,
               feeMode: DataAvailabilityMode, paymasterData: seq<Felt>, accountDeploymentData: seq<Felt>)
    | DeclareV0(maxFee: U128, signature: seq<Felt>, nonce: Felt, classHash: Felt, senderAddress: Felt)
    | DeclareV1(maxFee: U128, signature: seq<Felt>, nonce: Felt, classHash: Felt, senderAddress: Felt)
    | DeclareV2(maxFee: U128, signature: seq<Felt>, nonce: Felt, classHash: Felt, compiledClassHash: Felt,
                senderAddress: Felt)
    | DeclareV3(resourceBounds: ResourceBoundsMapping, tip: U64, signature: seq<Felt>, nonce: Felt,
                classHash: Felt, compiledClassHash: Felt, senderAddress: Felt, nonceMode: DataAvailabilityMode,
                feeMode: DataAvailabilityMode, paymasterData: seq<Felt>, accountDeploymentData: seq<Felt>)
    | DeployAccountV1(maxFee: U128, signature: seq<Felt>, nonce: Felt, classHash: Felt,
                      contractAddressSalt: Felt, constructorCalldata: seq<Felt>)
    | DeployAccountV3(resourceBounds: ResourceBoundsMapping, tip: U64, signature: seq<Felt>, nonce: Felt,
                      classHash: Felt, contractAddressSalt: Felt, constructorCalldata: seq<Felt>,
                      nonceMode: DataAvailabilityMode, feeMode: DataAvailabilityMode, paymasterData: seq<Felt>)
    | Deploy(version: Felt, classHash: Felt, contractAddressSalt: Felt, constructorCalldata: seq<Felt>)
    | L1Handler(version: Felt, nonce: Felt, contractAddress: Felt, entryPointSelector: Felt, calldata: seq<Felt>)

  const LEGACY_BLOCK_NUMBER: nat := 1470
  const LEGACY_L1_HANDLER_BLOCK: nat := 854

  /** Versions of simulated transactions are shifted by this number. */
  const SIMULATE_TX_VERSION_OFFSET: nat := TWO_128

  /** The texts that start the hashed lists. */
  datatype Tag = InvokeTag | DeclareTag | DeployTag | DeployAccountTag | L1HandlerTag | ContractAddressTag

  function Text(tag: Tag): (s: string)
    ensures IsAscii(s)
  {
    match tag
    case InvokeTag => "invoke"
    case DeclareTag => "declare"
    case DeployTag => "deploy"
    case DeployAccountTag => "deploy_account"
    case L1HandlerTag => "l1_handler"
    case ContractAddressTag => "STARKNET_CONTRACT_ADDRESS"
  }

  function Prefix(tag: Tag): Term {
    Felt(FromBytes(TextBytes(Text(tag))))
  }

  function Version(version: nat, offset: bool): Term {
    Felt(if offset then SIMULATE_TX_VERSION_OFFSET + version else version)
  }

  function GasHash(tip: U64, bounds: ResourceBoundsMapping): Term {
    HashChain([Felt(tip), Felt(ResourceValue(bounds, L1Gas)), Felt(ResourceValue(bounds, L2Gas))])
  }

  function CalldataHash(xs: seq<Felt>): Term {
    HashChain(Felts(xs))
  }

  function DeployedAddress(salt: Felt, classHash: Felt, calldata: seq<Felt>): Term {
    ContractAddress(HashChain(
      [Prefix(ContractAddressTag), Felt(0), Felt(salt), Felt(classHash), CalldataHash(calldata)]))
  }

  /** The block number comes after the given one. A missing number comes before all of them. */
  predicate After(block: Option<nat>, n: nat) {
    block.Some? && block.value > n
  }

  predicate Before(block: Option<nat>, n: nat) {
    block.Some? && block.value < n
  }

  /** The elements under the outermost hash. */
  function Preimage(tx: Transaction, chainId: Felt, offset: bool, block: Option<nat>): seq<Term> {
    match tx
    case InvokeV0(maxFee, _, contractAddress, selector, calldata) =>
      if After(block, LEGACY_BLOCK_NUMBER) then
        [Prefix(InvokeTag), Version(0, offset), Felt(contractAddress), Felt(selector), CalldataHash(calldata),
         Felt(maxFee), Felt(chainId)]
      else
        [Prefix(InvokeTag), Felt(contractAddress), Felt(selector), CalldataHash(calldata), Felt(chainId)]
    case InvokeV1(maxFee, _, nonce, sender, calldata) =>
      [Prefix(InvokeTag), Version(1, offset), Felt(sender), Felt(0), CalldataHash(calldata), Felt(maxFee),
       Felt(chainId), Felt(nonce)]
    case InvokeV3(bounds, tip, _, nonce, sender, calldata, nonceMode, feeMode, paymaster, deployment) =>
      [Prefix(InvokeTag), Version(3, offset), Felt(sender), GasHash(tip, bounds), CalldataHash(paymaster),
       Felt(chainId), Felt(nonce), Felt(ModesValue(nonceMode, feeMode)),
       HashChain([CalldataHash(deployment), CalldataHash(calldata)])]
    case DeclareV0(maxFee, _, nonce, classHash, sender) =>
      DeclareV0V1Preimage(maxFee, nonce, classHash, sender, chainId, offset)
    case DeclareV1(maxFee, _, nonce, classHash, sender) =>
      DeclareV0V1Preimage(maxFee, nonce, classHash, sender, chainId, offset)
    case DeclareV2(maxFee, _, nonce, classHash, compiledClassHash, sender) =>
      [Prefix(DeclareTag), Version(2, offset), Felt(sender), Felt(0), CalldataHash([classHash]), Felt(maxFee),
       Felt(chainId), Felt(nonce), Felt(compiledClassHash)]
    case DeclareV3(bounds, tip, _, nonce, classHash, compiledClassHash, sender, nonceMode, feeMode, paymaster,
                   deployment) =>
      [Prefix(DeclareTag), Version(3, offset), Felt(sender), GasHash(tip, bounds), CalldataHash(paymaster),
       Felt(chainId), Felt(nonce), Felt(ModesValue(nonceMode, feeMode)), CalldataHash(deployment),
       Felt(classHash), Felt(compiledClassHash)]
    case DeployAccountV1(maxFee, _, nonce, classHash, salt, calldata) =>
      [Prefix(DeployAccountTag), Version(1, offset), DeployedAddress(salt, classHash, calldata), Felt(0),
       CalldataHash([classHash, salt] + calldata), Felt(maxFee), Felt(chainId), Felt(nonce)]
    case DeployAccountV3(bounds, tip, _, nonce, classHash, salt, calldata, nonceMode, feeMode, paymaster) =>
      [Prefix(DeployAccountTag), Version(3, offset), DeployedAddress(salt, classHash, calldata),
       GasHash(tip, bounds), CalldataHash(paymaster), Felt(chainId), Felt(nonce),
       Felt(ModesValue(nonceMode, feeMode)), CalldataHash(calldata), Felt(classHash), Felt(salt)]
    case Deploy(version, classHash, salt, calldata) =>
      if After(block, LEGACY_BLOCK_NUMBER) then
        [Prefix(DeployTag), Felt(version), DeployedAddress(salt, classHash, calldata), Keccak("constructor"),
         CalldataHash(calldata), Felt(0), Felt(chainId)]
      else
        [Prefix(DeployTag), DeployedAddress(salt, classHash, calldata), Keccak("constructor"),
         CalldataHash(calldata), Felt(chainId)]
    case L1Handler(_, nonce, contractAddress, selector, calldata) =>
      if Before(block, LEGACY_L1_HANDLER_BLOCK) then
        [Prefix(InvokeTag), Felt(contractAddress), Felt(selector), CalldataHash(calldata), Felt(chainId)]
      else if Before(block, LEGACY_BLOCK_NUMBER) then
        [Prefix(L1HandlerTag), Felt(contractAddress), Felt(selector), CalldataHash(calldata), Felt(chainId),
         Felt(nonce)]
      else
        [Prefix(L1HandlerTag), Version(0, offset), Felt(contractAddress), Felt(selector), CalldataHash(calldata),
         Felt(0), Felt(chainId), Felt(nonce)]
  }

  /** Both versions share one implementation, which always hashes version 0. */
  function DeclareV0V1Preimage(maxFee: U128, nonce: Felt, classHash: Felt, sender: Felt, chainId: Felt, offset: bool)
    : seq<Term>
  {
    var version := Version(0, offset);
    var nonceOrClassHash := if version == Felt(0) then Felt(classHash) else Felt(nonce);
    var classOrNothingHash := if version == Felt(0) then CalldataHash([]) else CalldataHash([classHash]);
    [Prefix(DeclareTag), version, Felt(sender), Felt(0), classOrNothingHash, Felt(maxFee), Felt(chainId),
     nonceOrClassHash]
  }

  function ComputeHash(h: Hasher, tx: Transaction, chainId: Felt, offset: bool, block: Option<nat>): Term {
    HashOnElements(h, Preimage(tx, chainId, offset, block))
  }

  // ----- What a hash binds

  /**
    The part of a transaction that its hash depends on: the transaction with every other field blanked,
    whether an old format was used, and the version offset where the format has a version.
   */
  datatype Essence = Essence(tx: Transaction, legacy: bool, offset: bool)

  function Filled(m: ResourceBoundsMapping): ResourceBoundsMapping {
    map[L1Gas := BoundsOf(m, L1Gas), L2Gas := BoundsOf(m, L2Gas)]
  }

  function EssenceOf(tx: Transaction, offset: bool, block: Option<nat>): Essence {
    match tx
    case InvokeV0(maxFee, _, contractAddress, selector, calldata) =>
      if After(block, LEGACY_BLOCK_NUMBER)
      then Essence(InvokeV0(maxFee, [], contractAddress, selector, calldata), false, offset)
      else Essence(InvokeV0(0, [], contractAddress, selector, calldata), true, false)
    case InvokeV1(maxFee, _, nonce, sender, calldata) =>
      Essence(InvokeV1(maxFee, [], nonce, sender, calldata), false, offset)
    case InvokeV3(bounds, tip, _, nonce, sender, calldata, nonceMode, feeMode, paymaster, deployment) =>
      Essence(InvokeV3(Filled(bounds), tip, [], nonce, sender, calldata, nonceMode, feeMode, paymaster, deployment),
              false, offset)
    case DeclareV0(maxFee, _, nonce, classHash, sender) =>
      Essence(DeclareV1(maxFee, [], if offset then nonce else 0, classHash, sender), false, offset)
    case DeclareV1(maxFee, _, nonce, classHash, sender) =>
      Essence(DeclareV1(maxFee, [], if offset then nonce else 0, classHash, sender), false, offset)
    case DeclareV2(maxFee, _, nonce, classHash, compiledClassHash, sender) =>
      Essence(DeclareV2(maxFee, [], nonce, classHash, compiledClassHash, sender), false, offset)
    case DeclareV3(bounds, tip, _, nonce, classHash, compiledClassHash, sender, nonceMode, feeMode, paymaster,
                   deployment) =>
      Essence(DeclareV3(Filled(bounds), tip, [], nonce, classHash, compiledClassHash, sender, nonceMode, feeMode,
                        paymaster, deployment), false, offset)
    case DeployAccountV1(maxFee, _, nonce, classHash, salt, calldata) =>
      Essence(DeployAccountV1(maxFee, [], nonce, classHash, salt, calldata), false, offset)
    case DeployAccountV3(bounds, tip, _, nonce, classHash, salt, calldata, nonceMode, feeMode, paymaster) =>
      Essence(DeployAccountV3(Filled(bounds), tip, [], nonce, classHash, salt, calldata, nonceMode, feeMode, paymaster),
              false, offset)
    case Deploy(version, classHash, salt, calldata) =>
      if After(block, LEGACY_BLOCK_NUMBER)
      then Essence(tx, false, false)
      else Essence(Deploy(0, classHash, salt, calldata), true, false)
    case L1Handler(_, nonce, contractAddress, selector, calldata) =>
      if Before(block, LEGACY_L1_HANDLER_BLOCK) then
        Essence(InvokeV0(0, [], contractAddress, selector, calldata), true, false)
      else if Before(block, LEGACY_BLOCK_NUMBER) then
        Essence(L1Handler(0, nonce, contractAddress, selector, calldata), true, false)
      else
        Essence(L1Handler(0, nonce, contractAddress, selector, calldata), false, offset)
  }

  /** The first element and the number of elements under the hash. They tell the formats apart. */
  datatype Shape = Shape(tag: Tag, length: nat)

  function ShapeOf(tx: Transaction, block: Option<nat>): Shape {
    match tx
    case InvokeV0(_, _, _, _, _) => Shape(InvokeTag, if After(block, LEGACY_BLOCK_NUMBER) then 7 else 5)
    case InvokeV1(_, _, _, _, _) => Shape(InvokeTag, 8)
    case InvokeV3(_, _, _, _, _, _, _, _, _, _) => Shape(InvokeTag, 9)
    case DeclareV0(_, _, _, _, _) => Shape(DeclareTag, 8)
    case DeclareV1(_, _, _, _, _) => Shape(DeclareTag, 8)
    case DeclareV2(_, _, _, _, _, _) => Shape(DeclareTag, 9)
    case DeclareV3(_, _, _, _, _, _, _, _, _, _, _) => Shape(DeclareTag, 11)
    case DeployAccountV1(_, _, _, _, _, _) => Shape(DeployAccountTag, 8)
    case DeployAccountV3(_, _, _, _, _, _, _, _, _, _) => Shape(DeployAccountTag, 11)
    case Deploy(_, _, _, _) => Shape(DeployTag, if After(block, LEGACY_BLOCK_NUMBER) then 7 else 5)
    case L1Handler(_, _, _, _, _) =>
      if Before(block, LEGACY_L1_HANDLER_BLOCK) then Shape(InvokeTag, 5)
      else Shape(L1HandlerTag, if Before(block, LEGACY_BLOCK_NUMBER) then 6 else 8)
  }

  lemma PreimageLength(tx: Transaction, chainId: Felt, offset: bool, block: Option<nat>)
    ensures |Preimage(tx, chainId, offset, block)| == ShapeOf(tx, block).length > 0
  {
  }

  lemma PreimageStart(tx: Transaction, chainId: Felt, offset: bool, block: Option<nat>)
    requires |Preimage(tx, chainId, offset, block)| > 0
    ensures Preimage(tx, chainId, offset, block)[0] == Prefix(ShapeOf(tx, block).tag)
  {
  }

  lemma EssenceHasShape(t1: Transaction, o1: bool, b1: Option<nat>, t2: Transaction, o2: bool, b2: Option<nat>)
    requires EssenceOf(t1, o1, b1) == EssenceOf(t2, o2, b2)
    ensures ShapeOf(t1, b1) == ShapeOf(t2, b2)
  {
  }

  lemma PrefixInjective(a: Tag, b: Tag)
    requires Prefix(a) == Prefix(b)
    ensures a == b
  {
    FromBytesInjective(TextBytes(Text(a)), TextBytes(Text(b)));
    assert |Text(a)| == |Text(b)| && TextBytes(Text(a))[0] == TextBytes(Text(b))[0];
  }

  lemma PreimageHasShape(t1: Transaction, c1: Felt, o1: bool, b1: Option<nat>,
                         t2: Transaction, c2: Felt, o2: bool, b2: Option<nat>)
    requires Preimage(t1, c1, o1, b1) == Preimage(t2, c2, o2, b2)
    ensures ShapeOf(t1, b1) == ShapeOf(t2, b2)
  {
    PreimageLength(t1, c1, o1, b1);
    PreimageLength(t2, c2, o2, b2);
    PreimageStart(t1, c1, o1, b1);
    PreimageStart(t2, c2, o2, b2);
    PrefixInjective(ShapeOf(t1, b1).tag, ShapeOf(t2, b2).tag);
  }

  lemma GasHashBinds(tip1: U64, m1: ResourceBoundsMapping, tip2: U64, m2: ResourceBoundsMapping)
    ensures GasHash(tip1, m1) == GasHash(tip2, m2) <==> tip1 == tip2 && Filled(m1) == Filled(m2)
  {
    var a := [Felt(tip1), Felt(ResourceValue(m1, L1Gas)), Felt(ResourceValue(m1, L2Gas))];
    var b := [Felt(tip2), Felt(ResourceValue(m2, L1Gas)), Felt(ResourceValue(m2, L2Gas))];
    HashInjective(PedersenHasher, a, b);
    if a == b {
      assert a[0] == b[0] && a[1] == b[1] && a[2] == b[2];
      ResourceValueInjective(m1, m2, L1Gas);
      ResourceValueInjective(m1, m2, L2Gas);
    }
    if Filled(m1) == Filled(m2) {
      assert Filled(m1)[L1Gas] == Filled(m2)[L1Gas] && Filled(m1)[L2Gas] == Filled(m2)[L2Gas];
    }
  }

  lemma CalldataHashBinds(a: seq<Felt>, b: seq<Felt>)
    ensures CalldataHash(a) == CalldataHash(b) <==> a == b
  {
    if CalldataHash(a) == CalldataHash(b) {
      HashOfFeltsInjective(a, b);
    }
  }

  /** Everything that a list of elements under a hash can be compared by. */
  lemma SameLists(p: seq<Term>, q: seq<Term>)
    requires |p| == |q|
    ensures p == q <==> forall k | 0 <= k < |p| :: p[k] == q[k]
  {
  }

  // ----- Equal hashes, format by format

  ghost predicate Binds(t1: Transaction, c1: Felt, o1: bool, b1: Option<nat>,
                        t2: Transaction, c2: Felt, o2: bool, b2: Option<nat>) {
    Preimage(t1, c1, o1, b1) == Preimage(t2, c2, o2, b2)
    <==> c1 == c2 && EssenceOf(t1, o1, b1) == EssenceOf(t2, o2, b2)
  }

  lemma InvokeV0Binds(t1: Transaction, c1: Felt, o1: bool, b1: Option<nat>,
                      t2: Transaction, c2: Felt, o2: bool, b2: Option<nat>)
    requires ShapeOf(t1, b1) == ShapeOf(t2, b2) == Shape(InvokeTag, 7)
    ensures Binds(t1, c1, o1, b1, t2, c2, o2, b2)
  {
    SameLists(Preimage(t1, c1, o1, b1), Preimage(t2, c2, o2, b2));
    CalldataHashBinds(t1.calldata, t2.calldata);
  }

  lemma DataHashBinds(a1: Term, b1: Term, a2: Term, b2: Term)
    ensures HashChain([a1, b1]) == HashChain([a2, b2]) <==> a1 == a2 && b1 == b2
  {
    HashInjective(PedersenHasher, [a1, b1], [a2, b2]);
    assert [a1, b1] == [a2, b2] ==> [a1, b1][0] == [a2, b2][0] && [a1, b1][1] == [a2, b2][1];
  }

  lemma ModesBind(n1: DataAvailabilityMode, f1: DataAvailabilityMode,
                  n2: DataAvailabilityMode, f2: DataAvailabilityMode)
    ensures ModesValue(n1, f1) == ModesValue(n2, f2) <==> n1 == n2 && f1 == f2
  {
  }

  /** Class hash and salt are pushed in front of the constructor arguments. */
  lemma AccountCalldataBinds(c1: Felt, s1: Felt, a1: seq<Felt>, c2: Felt, s2: Felt, a2: seq<Felt>)
    ensures CalldataHash([c1, s1] + a1) == CalldataHash([c2, s2] + a2) <==> c1 == c2 && s1 == s2 && a1 == a2
  {
    var p, q := [c1, s1] + a1, [c2, s2] + a2;
    CalldataHashBinds(p, q);
    if p == q {
      assert p[0] == q[0] && p[1] == q[1] && a1 == p[2..] && a2 == q[2..];
    }
  }

  lemma AddressBinds(s1: Felt, c1: Felt, a1: seq<Felt>, s2: Felt, c2: Felt, a2: seq<Felt>)
    ensures DeployedAddress(s1, c1, a1) == DeployedAddress(s2, c2, a2) <==> s1 == s2 && c1 == c2 && a1 == a2
  {
    var p := [Prefix(ContractAddressTag), Felt(0), Felt(s1), Felt(c1), CalldataHash(a1)];
    var q := [Prefix(ContractAddressTag), Felt(0), Felt(s2), Felt(c2), CalldataHash(a2)];
    HashInjective(PedersenHasher, p, q);
    CalldataHashBinds(a1, a2);
    if p == q {
      assert p[2] == q[2] && p[3] == q[3] && p[4] == q[4];
    }
  }

  lemma LegacyInvokeBinds(t1: Transaction, c1: Felt, o1: bool, b1: Option<nat>,
                          t2: Transaction, c2: Felt, o2: bool, b2: Option<nat>)
    requires ShapeOf(t1, b1) == ShapeOf(t2, b2) == Shape(InvokeTag, 5)
    ensures Binds(t1, c1, o1, b1, t2, c2, o2, b2)
  {
    SameLists(Preimage(t1, c1, o1, b1), Preimage(t2, c2, o2, b2));
    CalldataHashBinds(t1.calldata, t2.calldata);
  }

  lemma InvokeV1Binds(t1: Transaction, c1: Felt, o1: bool, b1: Option<nat>,
                      t2: Transaction, c2: Felt, o2: bool, b2: Option<nat>)
    requires ShapeOf(t1, b1) == ShapeOf(t2, b2) == Shape(InvokeTag, 8)
    ensures Binds(t1, c1, o1, b1, t2, c2, o2, b2)
  {
    SameLists(Preimage(t1, c1, o1, b1), Preimage(t2, c2, o2, b2));
    CalldataHashBinds(t1.calldata, t2.calldata);
  }

  lemma InvokeV3Binds(t1: Transaction, c1: Felt, o1: bool, b1: Option<nat>,
                      t2: Transaction, c2: Felt, o2: bool, b2: Option<nat>)
    requires ShapeOf(t1, b1) == ShapeOf(t2, b2) == Shape(InvokeTag, 9)
    ensures Binds(t1, c1, o1, b1, t2, c2, o2, b2)
  {
    SameLists(Preimage(t1, c1, o1, b1), Preimage(t2, c2, o2, b2));
    GasHashBinds(t1.tip, t1.resourceBounds, t2.tip, t2.resourceBounds);
    CalldataHashBinds(t1.paymasterData, t2.paymasterData);
    CalldataHashBinds(t1.calldata, t2.calldata);
    CalldataHashBinds(t1.accountDeploymentData, t2.accountDeploymentData);
    ModesBind(t1.nonceMode, t1.feeMode, t2.nonceMode, t2.feeMode);
    DataHashBinds(CalldataHash(t1.accountDeploymentData), CalldataHash(t1.calldata),
                  CalldataHash(t2.accountDeploymentData), CalldataHash(t2.calldata));
  }

  lemma ClassHashBinds(c1: Felt, c2: Felt)
    ensures CalldataHash([c1]) == CalldataHash([c2]) <==> c1 == c2
  {
    CalldataHashBinds([c1], [c2]);
    assert [c1] == [c2] ==> [c1][0] == [c2][0];
  }

  lemma DeclareV0V1Binds(t1: Transaction, c1: Felt, o1: bool, b1: Option<nat>,
                         t2: Transaction, c2: Felt, o2: bool, b2: Option<nat>)
    requires ShapeOf(t1, b1) == ShapeOf(t2, b2) == Shape(DeclareTag, 8)
    ensures Binds(t1, c1, o1, b1, t2, c2, o2, b2)
  {
    SameLists(Preimage(t1, c1, o1, b1), Preimage(t2, c2, o2, b2));
    ClassHashBinds(t1.classHash, t2.classHash);
  }

  lemma DeclareV2Binds(t1: Transaction, c1: Felt, o1: bool, b1: Option<nat>,
                       t2: Transaction, c2: Felt, o2: bool, b2: Option<nat>)
    requires ShapeOf(t1, b1) == ShapeOf(t2, b2) == Shape(DeclareTag, 9)
    ensures Binds(t1, c1, o1, b1, t2, c2, o2, b2)
  {
    SameLists(Preimage(t1, c1, o1, b1), Preimage(t2, c2, o2, b2));
    ClassHashBinds(t1.classHash, t2.classHash);
  }

  lemma DeclareV3Binds(t1: Transaction, c1: Felt, o1: bool, b1: Option<nat>,
                       t2: Transaction, c2: Felt, o2: bool, b2: Option<nat>)
    requires ShapeOf(t1, b1) == ShapeOf(t2, b2) == Shape(DeclareTag, 11)
    ensures Binds(t1, c1, o1, b1, t2, c2, o2, b2)
  {
    ModesBind(t1.nonceMode, t1.feeMode, t2.nonceMode, t2.feeMode);
    SameLists(Preimage(t1, c1, o1, b1), Preimage(t2, c2, o2, b2));
    GasHashBinds(t1.tip, t1.resourceBounds, t2.tip, t2.resourceBounds);
    CalldataHashBinds(t1.paymasterData, t2.paymasterData);
    CalldataHashBinds(t1.accountDeploymentData, t2.accountDeploymentData);
  }

  lemma DeployAccountV1Binds(t1: Transaction, c1: Felt, o1: bool, b1: Option<nat>,
                             t2: Transaction, c2: Felt, o2: bool, b2: Option<nat>)
    requires ShapeOf(t1, b1) == ShapeOf(t2, b2) == Shape(DeployAccountTag, 8)
    ensures Binds(t1, c1, o1, b1, t2, c2, o2, b2)
  {
    SameLists(Preimage(t1, c1, o1, b1), Preimage(t2, c2, o2, b2));
    AccountCalldataBinds(t1.classHash, t1.contractAddressSalt, t1.constructorCalldata,
                         t2.classHash, t2.contractAddressSalt, t2.constructorCalldata);
  }

  lemma DeployAccountV3Binds(t1: Transaction, c1: Felt, o1: bool, b1: Option<nat>,
                             t2: Transaction, c2: Felt, o2: bool, b2: Option<nat>)
    requires ShapeOf(t1, b1) == ShapeOf(t2, b2) == Shape(DeployAccountTag, 11)
    ensures Binds(t1, c1, o1, b1, t2, c2, o2, b2)
  {
    ModesBind(t1.nonceMode, t1.feeMode, t2.nonceMode, t2.feeMode);
    AddressBinds(t1.contractAddressSalt, t1.classHash, t1.constructorCalldata,
                 t2.contractAddressSalt, t2.classHash, t2.constructorCalldata);
    SameLists(Preimage(t1, c1, o1, b1), Preimage(t2, c2, o2, b2));
    GasHashBinds(t1.tip, t1.resourceBounds, t2.tip, t2.resourceBounds);
    CalldataHashBinds(t1.paymasterData, t2.paymasterData);
    CalldataHashBinds(t1.constructorCalldata, t2.constructorCalldata);
  }

  lemma DeployBinds(t1: Transaction, c1: Felt, o1: bool, b1: Option<nat>,
                    t2: Transaction, c2: Felt, o2: bool, b2: Option<nat>)
    requires ShapeOf(t1, b1) == ShapeOf(t2, b2) == Shape(DeployTag, 7)
    ensures Binds(t1, c1, o1, b1, t2, c2, o2, b2)
  {
    SameLists(Preimage(t1, c1, o1, b1), Preimage(t2, c2, o2, b2));
    AddressBinds(t1.contractAddressSalt, t1.classHash, t1.constructorCalldata,
                 t2.contractAddressSalt, t2.classHash, t2.constructorCalldata);
  }

  lemma LegacyDeployBinds(t1: Transaction, c1: Felt, o1: bool, b1: Option<nat>,
                          t2: Transaction, c2: Felt, o2: bool, b2: Option<nat>)
    requires ShapeOf(t1, b1) == ShapeOf(t2, b2) == Shape(DeployTag, 5)
    ensures Binds(t1, c1, o1, b1, t2, c2, o2, b2)
  {
    SameLists(Preimage(t1, c1, o1, b1), Preimage(t2, c2, o2, b2));
    AddressBinds(t1.contractAddressSalt, t1.classHash, t1.constructorCalldata,
                 t2.contractAddressSalt, t2.classHash, t2.constructorCalldata);
  }

  lemma L1HandlerBinds(t1: Transaction, c1: Felt, o1: bool, b1: Option<nat>,
                       t2: Transaction, c2: Felt, o2: bool, b2: Option<nat>)
    requires ShapeOf(t1, b1) == ShapeOf(t2, b2) == Shape(L1HandlerTag, 8)
    ensures Binds(t1, c1, o1, b1, t2, c2, o2, b2)
  {
    SameLists(Preimage(t1, c1, o1, b1), Preimage(t2, c2, o2, b2));
    CalldataHashBinds(t1.calldata, t2.calldata);
  }

  lemma LegacyL1HandlerBinds(t1: Transaction, c1: Felt, o1: bool, b1: Option<nat>,
                             t2: Transaction, c2: Felt, o2: bool, b2: Option<nat>)
    requires ShapeOf(t1, b1) == ShapeOf(t2, b2) == Shape(L1HandlerTag, 6)
    ensures Binds(t1, c1, o1, b1, t2, c2, o2, b2)
  {
    SameLists(Preimage(t1, c1, o1, b1), Preimage(t2, c2, o2, b2));
    CalldataHashBinds(t1.calldata, t2.calldata);
  }

  /**
    For all transactions, chains, version offsets and block numbers: two hashes are equal exactly when
    the chains and the essences agree.
   */
  lemma HashBinding(h: Hasher, t1: Transaction, c1: Felt, o1: bool, b1: Option<nat>,
                    t2: Transaction, c2: Felt, o2: bool, b2: Option<nat>)
    ensures ComputeHash(h, t1, c1, o1, b1) == ComputeHash(h, t2, c2, o2, b2)
       <==> c1 == c2 && EssenceOf(t1, o1, b1) == EssenceOf(t2, o2, b2)
  {
    HashInjective(h, Preimage(t1, c1, o1, b1), Preimage(t2, c2, o2, b2));
    if ShapeOf(t1, b1) == ShapeOf(t2, b2) {
      SameShapeBinds(t1, c1, o1, b1, t2, c2, o2, b2);
    } else {
      if Preimage(t1, c1, o1, b1) == Preimage(t2, c2, o2, b2) {
        PreimageHasShape(t1, c1, o1, b1, t2, c2, o2, b2);
      }
      if EssenceOf(t1, o1, b1) == EssenceOf(t2, o2, b2) {
        EssenceHasShape(t1, o1, b1, t2, o2, b2);
      }
    }
  }

  lemma SameShapeBinds(t1: Transaction, c1: Felt, o1: bool, b1: Option<nat>,
                       t2: Transaction, c2: Felt, o2: bool, b2: Option<nat>)
    requires ShapeOf(t1, b1) == ShapeOf(t2, b2)
    ensures Binds(t1, c1, o1, b1, t2, c2, o2, b2)
  {
    match ShapeOf(t1, b1)
    case Shape(InvokeTag, length) =>
      if length == 5 { LegacyInvokeBinds(t1, c1, o1, b1, t2, c2, o2, b2); }
      else if length == 7 { InvokeV0Binds(t1, c1, o1, b1, t2, c2, o2, b2); }
      else if length == 8 { InvokeV1Binds(t1, c1, o1, b1, t2, c2, o2, b2); }
      else { InvokeV3Binds(t1, c1, o1, b1, t2, c2, o2, b2); }
    case Shape(DeclareTag, length) =>
      if length == 8 { DeclareV0V1Binds(t1, c1, o1, b1, t2, c2, o2, b2); }
      else if length == 9 { DeclareV2Binds(t1, c1, o1, b1, t2, c2, o2, b2); }
      else { DeclareV3Binds(t1, c1, o1, b1, t2, c2, o2, b2); }
    case Shape(DeployAccountTag, length) =>
      if length == 8 { DeployAccountV1Binds(t1, c1, o1, b1, t2, c2, o2, b2); }
      else { DeployAccountV3Binds(t1, c1, o1, b1, t2, c2, o2, b2); }
    case Shape(DeployTag, length) =>
      if length == 5 { LegacyDeployBinds(t1, c1, o1, b1, t2, c2, o2, b2); }
      else { DeployBinds(t1, c1, o1, b1, t2, c2, o2, b2); }
    case Shape(L1HandlerTag, length) =>
      if length == 6 { LegacyL1HandlerBinds(t1, c1, o1, b1, t2, c2, o2, b2); }
      else { L1HandlerBinds(t1, c1, o1, b1, t2, c2, o2, b2); }
    case Shape(ContractAddressTag, _) =>
  }

  // ----- Consequences

  /** The same transaction, up to signature, handler version and writing a zero bound out or not. */
  ghost predicate Agree(t1: Transaction, t2: Transaction) {
    match t1
    case InvokeV0(maxFee, _, contractAddress, selector, calldata) =>
      t2.InvokeV0? && t2 == InvokeV0(maxFee, t2.signature, contractAddress, selector, calldata)
    case InvokeV1(maxFee, _, nonce, sender, calldata) =>
      t2.InvokeV1? && t2 == InvokeV1(maxFee, t2.signature, nonce, sender, calldata)
    case InvokeV3(bounds, tip, _, nonce, sender, calldata, nonceMode, feeMode, paymaster, deployment) =>
      && t2.InvokeV3?
      && t2 == InvokeV3(t2.resourceBounds, tip, t2.signature, nonce, sender, calldata, nonceMode, feeMode,
                        paymaster, deployment)
      && SameBounds(bounds, t2.resourceBounds)
    case DeclareV0(_, _, _, _, _) => false
    case DeclareV1(_, _, _, _, _) => false
    case DeclareV2(maxFee, _, nonce, classHash, compiledClassHash, sender) =>
      t2.DeclareV2? && t2 == DeclareV2(maxFee, t2.signature, nonce, classHash, compiledClassHash, sender)
    case DeclareV3(bounds, tip, _, nonce, classHash, compiledClassHash, sender, nonceMode, feeMode, paymaster,
                   deployment) =>
      && t2.DeclareV3?
      && t2 == DeclareV3(t2.resourceBounds, tip, t2.signature, nonce, classHash, compiledClassHash, sender, nonceMode,
                         feeMode, paymaster, deployment)
      && SameBounds(bounds, t2.resourceBounds)
    case DeployAccountV1(maxFee, _, nonce, classHash, salt, calldata) =>
      t2.DeployAccountV1? && t2 == DeployAccountV1(maxFee, t2.signature, nonce, classHash, salt, calldata)
    case DeployAccountV3(bounds, tip, _, nonce, classHash, salt, calldata, nonceMode, feeMode, paymaster) =>
      && t2.DeployAccountV3?
      && t2 == DeployAccountV3(t2.resourceBounds, tip, t2.signature, nonce, classHash, salt, calldata, nonceMode,
                               feeMode, paymaster)
      && SameBounds(bounds, t2.resourceBounds)
    case Deploy(_, _, _, _) => t2 == t1
    case L1Handler(_, nonce, contractAddress, selector, calldata) =>
      t2.L1Handler? && t2 == L1Handler(t2.version, nonce, contractAddress, selector, calldata)
  }

  ghost predicate SameBounds(m1: ResourceBoundsMapping, m2: ResourceBoundsMapping) {
    forall r: Resource :: BoundsOf(m1, r) == BoundsOf(m2, r)
  }

  predicate IsDeclareV0V1(tx: Transaction) {
    tx.DeclareV0? || tx.DeclareV1?
  }

  /**
    After block 1470, for every kind except the first two declare versions: equal hashes mean the same
    transaction, on the same chain, and (where the format has a version) both simulated or both not.
   */
  lemma ModernHashBinding(h: Hasher, t1: Transaction, c1: Felt, o1: bool, n1: nat,
                          t2: Transaction, c2: Felt, o2: bool, n2: nat)
    requires n1 > LEGACY_BLOCK_NUMBER && n2 > LEGACY_BLOCK_NUMBER && !IsDeclareV0V1(t1)
    ensures ComputeHash(h, t1, c1, o1, Some(n1)) == ComputeHash(h, t2, c2, o2, Some(n2))
       <==> c1 == c2 && Agree(t1, t2) && (o1 == o2 || t1.Deploy?)
  {
    HashBinding(h, t1, c1, o1, Some(n1), t2, c2, o2, Some(n2));
    SameEssence(t1, o1, n1, t2, o2, n2);
  }

  lemma SameEssence(t1: Transaction, o1: bool, n1: nat, t2: Transaction, o2: bool, n2: nat)
    requires n1 > LEGACY_BLOCK_NUMBER && n2 > LEGACY_BLOCK_NUMBER && !IsDeclareV0V1(t1)
    ensures EssenceOf(t1, o1, Some(n1)) == EssenceOf(t2, o2, Some(n2))
       <==> Agree(t1, t2) && (o1 == o2 || t1.Deploy?)
  {
    if || (t1.InvokeV3? && t2.InvokeV3?)
       || (t1.DeclareV3? && t2.DeclareV3?)
       || (t1.DeployAccountV3? && t2.DeployAccountV3?)
    {
      FilledBounds(t1.resourceBounds, t2.resourceBounds);
    }
  }

  lemma FilledBounds(m1: ResourceBoundsMapping, m2: ResourceBoundsMapping)
    ensures Filled(m1) == Filled(m2) <==> SameBounds(m1, m2)
  {
    if Filled(m1) == Filled(m2) {
      assert Filled(m1)[L1Gas] == Filled(m2)[L1Gas] && Filled(m1)[L2Gas] == Filled(m2)[L2Gas];
      forall r: Resource ensures BoundsOf(m1, r) == BoundsOf(m2, r) {
        assert r == L1Gas || r == L2Gas;
      }
    }
  }

  /** Declare V0 and V1 do not bind the nonce, nor tell the versions apart, outside of simulations. */
  lemma DeclareV0V1Collision(h: Hasher, t1: Transaction, t2: Transaction, chainId: Felt, block: Option<nat>)
    requires IsDeclareV0V1(t1) && IsDeclareV0V1(t2)
    ensures ComputeHash(h, t1, chainId, false, block) == ComputeHash(h, t2, chainId, false, block)
       <==> t1.maxFee == t2.maxFee && t1.classHash == t2.classHash && t1.senderAddress == t2.senderAddress
  {
    HashBinding(h, t1, chainId, false, block, t2, chainId, false, block);
  }

  /** Before block 854 an L1 handler hashes like an invoke with the same call, whatever nonce and fee. */
  lemma LegacyCollision(h: Hasher, t1: Transaction, t2: Transaction, chainId: Felt, n: nat)
    requires t1.InvokeV0? && t2.L1Handler?
    ensures ComputeHash(h, t1, chainId, false, Some(n)) == ComputeHash(h, t2, chainId, false, Some(n))
       <==> n < LEGACY_L1_HANDLER_BLOCK && t1.contractAddress == t2.contractAddress
            && t1.entryPointSelector == t2.entryPointSelector && t1.calldata == t2.calldata
  {
    HashBinding(h, t1, chainId, false, Some(n), t2, chainId, false, Some(n));
  }

  /** In the pending block, which has no number, an InvokeV0 hash leaves out the maximal fee. */
  lemma PendingInvokeV0(h: Hasher, t1: Transaction, t2: Transaction, chainId: Felt)
    requires t1.InvokeV0? && t2.InvokeV0?
    ensures ComputeHash(h, t1, chainId, false, None) == ComputeHash(h, t2, chainId, false, None)
       <==> t1.contractAddress == t2.contractAddress
            && t1.entryPointSelector == t2.entryPointSelector && t1.calldata == t2.calldata
  {
    HashBinding(h, t1, chainId, false, None, t2, chainId, false, None);
  }

  /** The kinds and block numbers for which leaving the number out selects another format. */
  predicate NumberMatters(tx: Transaction, n: nat) {
    || ((tx.InvokeV0? || tx.Deploy?) && n > LEGACY_BLOCK_NUMBER)
    || (tx.L1Handler? && n < LEGACY_BLOCK_NUMBER)
  }

  /** The hash in the pending block is the one in block `n` exactly where the number does not matter. */
  lemma PendingHashIsFinal(h: Hasher, tx: Transaction, chainId: Felt, offset: bool, n: nat)
    ensures ComputeHash(h, tx, chainId, offset, None) == ComputeHash(h, tx, chainId, offset, Some(n))
       <==> !NumberMatters(tx, n)
  {
    HashBinding(h, tx, chainId, offset, None, tx, chainId, offset, Some(n));
  }
}
