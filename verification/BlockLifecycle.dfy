/**
  The life of a Substrate block in the Starknet pallet: initialisation from the digest, the inherent that
  sets the sequencer address, and finalisation, which moves the wrapped Starknet block to a consensus log.
 */
module BlockLifecycle {
  import opened Primitives
  import opened Bytes
  import opened Blocks
  import opened DigestLog
  import opened SealProtocol

  /** The pallet's storage. A missing `seqAddrUpdate` reads as false. */
  datatype Storage = Storage(
    seqAddrUpdate: Option<bool>,
    sequencerAddress: Felt,
    blockHash: map<nat, Felt>,
    pending: seq<TransactionHash.Transaction>,
    nonces: map<Felt, Felt>,
    contractClassHashes: map<Felt, Felt>,
    compiledClassHashes: map<Felt, Felt>,
    contractClasses: map<Felt, seq<Byte>>,
    contractAbis: map<Felt, seq<Byte>>)

  // ----- Initialisation

  function InsertAll<K, V>(m: map<K, V>, entries: seq<(K, V)>): map<K, V> {
    if entries == [] then m
    else
      var (key, value) := entries[|entries| - 1];
      InsertAll(m, entries[..|entries| - 1])[key := value]
  }

  /** Contracts that change their class come after the new ones. */
  function WithStateUpdate(p: Storage, u: StateUpdate): Storage {
    p.(nonces := InsertAll(p.nonces, u.nonces),
       contractClassHashes := InsertAll(p.contractClassHashes, u.deployedContracts + u.replacedClasses),
       compiledClassHashes := InsertAll(p.compiledClassHashes, u.declaredClasses))
  }

  function ContractsOf(c: ClassUpdate): seq<(Felt, seq<Byte>)> {
    seq(|c|, k requires 0 <= k < |c| => (c[k].hash, c[k].contract))
  }

  function AbisOf(c: ClassUpdate): seq<(Felt, seq<Byte>)> {
    seq(|c|, k requires 0 <= k < |c| => (c[k].hash, c[k].abi))
  }

  function WithClasses(p: Storage, c: ClassUpdate): Storage {
    p.(contractClasses := InsertAll(p.contractClasses, ContractsOf(c)),
       contractAbis := InsertAll(p.contractAbis, AbisOf(c)))
  }

  /** What one log does to the storage. Undecodable data is ignored. */
  function WithLog(pc: PayloadCodec, p: Storage, item: DigestItem): Storage {
    if item.PreRuntime? && item.engine == STATE_ENGINE_ID then
      match pc.decodeState(item.data)
      case Some(u) => WithStateUpdate(p, u)
      case None => p
    else if item.PreRuntime? && item.engine == CLASS_ENGINE_ID then
      match pc.decodeClasses(item.data)
      case Some(c) => WithClasses(p, c)
      case None => p
    else p
  }

  function AfterInitialize(pc: PayloadCodec, p: Storage, logs: Digest): Storage {
    if logs == [] then p
    else WithLog(pc, AfterInitialize(pc, p, logs[..|logs| - 1]), logs[|logs| - 1])
  }

  // ----- The sequencer address inherent

  /** A call has no origin or a signer, and an address that may not be a valid one. */
  datatype Call = Call(signed: bool, address: Option<Felt>)

  datatype CallResult = Done(storage: Storage) | Refused | Panic

  function SetSequencerAddress(p: Storage, number: nat, call: Call): CallResult {
    if call.signed then Refused
    else if number > 1 && p.seqAddrUpdate.Some? then Panic
    else match call.address
      case None => Refused
      case Some(a) => Done(p.(sequencerAddress := a, seqAddrUpdate := Some(true)))
  }

  /** The storage after the calls of a block; no value if one of them panics. */
  function AfterCalls(p: Storage, number: nat, calls: seq<Call>): Option<Storage> {
    if calls == [] then Some(p)
    else match AfterCalls(p, number, calls[..|calls| - 1])
      case None => None
      case Some(q) =>
        match SetSequencerAddress(q, number, calls[|calls| - 1])
        case Panic => None
        case Refused => Some(q)
        case Done(q') => Some(q')
  }

  // ----- Finalisation

  datatype Finalized = Finalized(storage: Storage, digest: Digest)

  predicate HasBlockHash(b: StarknetBlock) {
    b.header.extraData.Some? && b.header.extraData.value < PRIME
  }

  /** No value if an index or an unwrap panics. */
  function AfterStoreBlock(pc: PayloadCodec, p: Storage, number: nat, digest: Digest): Option<Finalized> {
    if digest == [] then None
    else match digest[0]
      case PreRuntime(engine, data) =>
        if engine != MADARA_ENGINE_ID then Some(Finalized(p, digest))
        else (match pc.codec.decodeBlock(data)
              case None => Some(Finalized(p, digest))
              case Some(b) =>
                if !HasBlockHash(b) then None
                else Some(Finalized(p.(blockHash := p.blockHash[number := b.header.extraData.value], pending := []),
                                    digest + [Consensus(MADARA_ENGINE_ID, pc.codec.encodeLog(Block(b)))])))
      case _ => Some(Finalized(p, digest))
  }

  function AfterFinalize(pc: PayloadCodec, p: Storage, number: nat, digest: Digest): Option<Finalized> {
    if p.seqAddrUpdate != Some(true) then None
    else AfterStoreBlock(pc, p.(seqAddrUpdate := None), number, digest)
  }

  /** A whole block: its digest, the calls of the inherent, and the logs that other pallets deposit. */
  function AfterBlock(pc: PayloadCodec, p: Storage, number: nat, digest: Digest, calls: seq<Call>, others: Digest)
    : Option<Finalized>
  {
    match AfterCalls(AfterInitialize(pc, p, digest), number, calls)
    case None => None
    case Some(q) => AfterFinalize(pc, q, number, digest + others)
  }

  // ----- The pallet

  class Pallet {
    var storage: Storage
    var number: nat
    var digest: Digest

    constructor (storage: Storage, number: nat, digest: Digest)
      ensures this.storage == storage && this.number == number && this.digest == digest
    {
      this.storage, this.number, this.digest := storage, number, digest;
    }

    method OnInitialize(pc: PayloadCodec)
      modifies this`storage
      ensures storage == AfterInitialize(pc, old(storage), digest)
    {
      var i := 0;
      while i < |digest|
        invariant 0 <= i <= |digest|
        invariant storage == AfterInitialize(pc, old(storage), digest[..i])
      {
        assert digest[..i + 1][..i] == digest[..i];
        match digest[i] {
          case PreRuntime(engine, data) =>
            if engine == STATE_ENGINE_ID {
              StoreStateUpdate(pc, data);
            } else if engine == CLASS_ENGINE_ID {
              StoreClassUpdate(pc, data);
            }
          case _ =>
        }
        i := i + 1;
      }
      assert digest[..i] == digest;
    }

    method StoreStateUpdate(pc: PayloadCodec, data: seq<Byte>)
      modifies this`storage
      ensures storage == match pc.decodeState(data)
                         case Some(u) => WithStateUpdate(old(storage), u)
                         case None => old(storage)
    {
      match pc.decodeState(data) {
        case Some(u) =>
          var nonces := Inserted(storage.nonces, u.nonces);
          var classHashes := Inserted(storage.contractClassHashes, u.deployedContracts + u.replacedClasses);
          var compiled := Inserted(storage.compiledClassHashes, u.declaredClasses);
          storage := storage.(nonces := nonces, contractClassHashes := classHashes, compiledClassHashes := compiled);
        case None =>
      }
    }

    method StoreClassUpdate(pc: PayloadCodec, data: seq<Byte>)
      modifies this`storage
      ensures storage == match pc.decodeClasses(data)
                         case Some(c) => WithClasses(old(storage), c)
                         case None => old(storage)
    {
      match pc.decodeClasses(data) {
        case Some(c) =>
          var contracts := Inserted(storage.contractClasses, ContractsOf(c));
          var abis := Inserted(storage.contractAbis, AbisOf(c));
          storage := storage.(contractClasses := contracts, contractAbis := abis);
        case None =>
      }
    }

    /** `panicked` stands for the failing assertion. */
    method TrySetSequencerAddress(call: Call) returns (ok: bool, panicked: bool)
      modifies this`storage
      ensures match SetSequencerAddress(old(storage), number, call)
              case Done(p) => ok && !panicked && storage == p
              case Refused => !ok && !panicked && storage == old(storage)
              case Panic => !ok && panicked && storage == old(storage)
    {
      if call.signed {
        return false, false;
      }
      if number > 1 && storage.seqAddrUpdate.Some? {
        return false, true;
      }
      if call.address.None? {
        return false, false;
      }
      storage := storage.(sequencerAddress := call.address.value, seqAddrUpdate := Some(true));
      ok, panicked := true, false;
    }

    method OnFinalize(pc: PayloadCodec) returns (panicked: bool)
      modifies this`storage, this`digest
      ensures match AfterFinalize(pc, old(storage), number, old(digest))
              case Some(f) => !panicked && storage == f.storage && digest == f.digest
              case None => panicked
    {
      var updated := storage.seqAddrUpdate == Some(true);
      storage := storage.(seqAddrUpdate := None);
      if !updated || digest == [] {
        return true;
      }
      panicked := false;
      match digest[0] {
        case PreRuntime(engine, data) =>
          if engine == MADARA_ENGINE_ID {
            var b := pc.codec.decodeBlock(data);
            if b.Some? {
              if !HasBlockHash(b.value) {
                return true;
              }
              storage := storage.(blockHash := storage.blockHash[number := b.value.header.extraData.value],
                                  pending := []);
              digest := digest + [Consensus(MADARA_ENGINE_ID, pc.codec.encodeLog(Block(b.value)))];
            }
          }
        case _ =>
      }
    }
  }

  method Inserted<K, V>(m: map<K, V>, entries: seq<(K, V)>) returns (r: map<K, V>)
    ensures r == InsertAll(m, entries)
  {
    r := m;
    var i := 0;
    while i < |entries|
      invariant 0 <= i <= |entries|
      invariant r == InsertAll(m, entries[..i])
    {
      assert entries[..i + 1][..i] == entries[..i];
      r := r[entries[i].0 := entries[i].1];
      i := i + 1;
    }
    assert entries[..i] == entries;
  }

  // ----- What an update leaves behind

  function At<K, V>(m: map<K, V>, key: K): Option<V> {
    if key in m then Some(m[key]) else None
  }

  /** The value of the last entry for a key. */
  function LastEntry<K(==), V>(entries: seq<(K, V)>, key: K): Option<V> {
    if entries == [] then None
    else if entries[|entries| - 1].0 == key then Some(entries[|entries| - 1].1)
    else LastEntry(entries[..|entries| - 1], key)
  }

  function Or<V>(a: Option<V>, b: Option<V>): Option<V> {
    if a.Some? then a else b
  }

  lemma {:induction false} InsertAllAt<K, V>(m: map<K, V>, entries: seq<(K, V)>, key: K)
    ensures At(InsertAll(m, entries), key) == Or(LastEntry(entries, key), At(m, key))
  {
    if entries != [] {
      InsertAllAt(m, entries[..|entries| - 1], key);
    }
  }

  lemma {:induction false} LastEntryConcat<K, V>(a: seq<(K, V)>, b: seq<(K, V)>, key: K)
    ensures LastEntry(a + b, key) == Or(LastEntry(b, key), LastEntry(a, key))
    decreases b
  {
    if b == [] {
      assert a + b == a;
    } else {
      assert (a + b)[..|a + b| - 1] == a + b[..|b| - 1];
      LastEntryConcat(a, b[..|b| - 1], key);
    }
  }

  /** A replaced class wins over a deployed one, and both over what was stored; nothing else changes. */
  lemma StateUpdateMeaning(p: Storage, u: StateUpdate, key: Felt)
    ensures var q := WithStateUpdate(p, u);
            && At(q.nonces, key) == Or(LastEntry(u.nonces, key), At(p.nonces, key))
            && At(q.contractClassHashes, key)
               == Or(LastEntry(u.replacedClasses, key),
                     Or(LastEntry(u.deployedContracts, key), At(p.contractClassHashes, key)))
            && At(q.compiledClassHashes, key) == Or(LastEntry(u.declaredClasses, key), At(p.compiledClassHashes, key))
            && p == q.(nonces := p.nonces, contractClassHashes := p.contractClassHashes,
                       compiledClassHashes := p.compiledClassHashes)
  {
    InsertAllAt(p.nonces, u.nonces, key);
    InsertAllAt(p.contractClassHashes, u.deployedContracts + u.replacedClasses, key);
    InsertAllAt(p.compiledClassHashes, u.declaredClasses, key);
    LastEntryConcat(u.deployedContracts, u.replacedClasses, key);
  }

  // ----- When no assertion fails

  /** The calls without a signer. */
  function Unsigned(calls: seq<Call>): seq<Call> {
    if calls == [] then []
    else Unsigned(calls[..|calls| - 1]) + (if calls[|calls| - 1].signed then [] else [calls[|calls| - 1]])
  }

  /** Valid addresses, that is. */
  function Valid(calls: seq<Call>): nat {
    if calls == [] then 0
    else Valid(calls[..|calls| - 1]) + (if calls[|calls| - 1].address.Some? then 1 else 0)
  }

  /**
    After block 1, the inherent must come through exactly once, and nothing without a signer may follow it.
    In block 1 anything goes, since the genesis has set the flag already.
   */
  ghost predicate CallsOk(number: nat, calls: seq<Call>) {
    number > 1 ==>
      var us := Unsigned(calls);
      us != [] && Valid(us) == 1 && us[|us| - 1].address.Some?
  }

  /** The flag that a block starts with: set by the genesis, taken away by every finalisation. */
  function FlagBefore(number: nat): Option<bool> {
    if number <= 1 then Some(true) else None
  }

  lemma {:induction false} CallsMeaning(p: Storage, number: nat, calls: seq<Call>)
    requires p.seqAddrUpdate == FlagBefore(number)
    ensures var r := AfterCalls(p, number, calls);
            if number <= 1 then r.Some? && r.value.seqAddrUpdate == Some(true)
            else
              var us := Unsigned(calls);
              match r
              case Some(q) =>
                && (Valid(us) == 0 ==> q.seqAddrUpdate == None)
                && (Valid(us) > 0 ==> CallsOk(number, calls) && q.seqAddrUpdate == Some(true))
              case None => Valid(us) > 0 && !CallsOk(number, calls)
    decreases calls
  {
    if calls != [] {
      var before := calls[..|calls| - 1];
      CallsMeaning(p, number, before);
      var us, last := Unsigned(before), calls[|calls| - 1];
      if !last.signed {
        assert Unsigned(calls)[..|Unsigned(calls)| - 1] == us;
      } else {
        assert Unsigned(calls) == us;
      }
    }
  }

  /** The address of the last call that sets one. */
  function AddressAfter(before: Felt, calls: seq<Call>): Felt {
    if calls == [] then before
    else
      var last := calls[|calls| - 1];
      if !last.signed && last.address.Some? then last.address.value else AddressAfter(before, calls[..|calls| - 1])
  }

  lemma {:induction false} CallsFrame(p: Storage, number: nat, calls: seq<Call>)
    ensures var r := AfterCalls(p, number, calls);
            r.Some? ==> r.value == p.(seqAddrUpdate := r.value.seqAddrUpdate,
                                      sequencerAddress := AddressAfter(p.sequencerAddress, calls))
    decreases calls
  {
    if calls != [] {
      CallsFrame(p, number, calls[..|calls| - 1]);
    }
  }

  // ----- One block

  /** The block as a consensus log. */
  function BlockLog(pc: PayloadCodec, b: StarknetBlock): DigestItem {
    Consensus(MADARA_ENGINE_ID, pc.codec.encodeLog(Block(b)))
  }

  function WithItem(p: Storage, item: Item): Storage {
    WithClasses(WithStateUpdate(p, item.stateUpdate), item.classes)
  }

  /** What a block stores of the fetched data. */
  function Stored(p: Storage, number: nat, item: Item): Storage
    requires HasBlockHash(item.block)
  {
    var q := WithItem(p, item);
    q.(blockHash := q.blockHash[number := item.block.header.extraData.value], pending := [])
  }

  lemma InitializeFromItem(pc: PayloadCodec, p: Storage, item: Item)
    requires PayloadsRoundTrip(pc)
    ensures AfterInitialize(pc, p, ItemDigest(pc, item)) == WithItem(p, item)
  {
    var d := ItemDigest(pc, item);
    assert d[..2][..1] == d[..1] && d[..1][..0] == [];
    assert AfterInitialize(pc, p, d[..0]) == p;
    assert AfterInitialize(pc, p, d[..1]) == WithLog(pc, p, d[0]) == p;
    assert AfterInitialize(pc, p, d[..2]) == WithLog(pc, p, d[1]) == WithStateUpdate(p, item.stateUpdate);
    assert d[..|d| - 1] == d[..2];
  }

  /**
    A block made from a digest of the provider goes through exactly if the inherent is called as it should
    be and the fetched block has its hash. It stores the fetched data and adds the block to the digest.
   */
  lemma BlockGoesThrough(pc: PayloadCodec, p: Storage, number: nat, item: Item, calls: seq<Call>, others: Digest)
    requires PayloadsRoundTrip(pc) && number > 0 && p.seqAddrUpdate == FlagBefore(number)
    ensures var r := AfterBlock(pc, p, number, ItemDigest(pc, item), calls, others);
            && (r.Some? <==> CallsOk(number, calls) && HasBlockHash(item.block))
            && (r.Some? ==>
                  && r.value.digest == ItemDigest(pc, item) + others + [BlockLog(pc, item.block)]
                  && r.value.storage == Stored(p, number, item).(
                       seqAddrUpdate := FlagBefore(number + 1),
                       sequencerAddress := AddressAfter(p.sequencerAddress, calls)))
  {
    InitializeFromItem(pc, p, item);
    var q := AfterInitialize(pc, p, ItemDigest(pc, item));
    CallsMeaning(q, number, calls);
    CallsFrame(q, number, calls);
    var d := ItemDigest(pc, item) + others;
    assert d != [] && d[0] == ItemDigest(pc, item)[0];
  }

  lemma NoLogsInItemDigest(pc: PayloadCodec, item: Item)
    ensures Logs(pc.codec, ItemDigest(pc, item), MADARA_ENGINE_ID) == []
  {
    var d := ItemDigest(pc, item);
    assert d[..2][..1] == d[..1] && d[..1][..0] == [];
    assert Logs(pc.codec, d[..1], MADARA_ENGINE_ID) == [] && Logs(pc.codec, d[..2], MADARA_ENGINE_ID) == [];
    assert d[..|d| - 1] == d[..2];
  }

  lemma LogsOfFinalDigest(pc: PayloadCodec, item: Item, others: Digest, post: Digest)
    requires PayloadsRoundTrip(pc)
    ensures Logs(pc.codec, ItemDigest(pc, item) + others + [BlockLog(pc, item.block)] + post, MADARA_ENGINE_ID)
         == Logs(pc.codec, others, MADARA_ENGINE_ID) + [Block(item.block)] + Logs(pc.codec, post, MADARA_ENGINE_ID)
  {
    var d, log := ItemDigest(pc, item), [BlockLog(pc, item.block)];
    NoLogsInItemDigest(pc, item);
    LogsConcat(pc.codec, d, others, MADARA_ENGINE_ID);
    LogsConcat(pc.codec, d + others, log, MADARA_ENGINE_ID);
    LogsConcat(pc.codec, d + others + log, post, MADARA_ENGINE_ID);
    SingleLog(pc, item.block);
  }

  lemma SingleLog(pc: PayloadCodec, b: StarknetBlock)
    requires PayloadsRoundTrip(pc)
    ensures Logs(pc.codec, [BlockLog(pc, b)], MADARA_ENGINE_ID) == [Block(b)]
  {
    assert [BlockLog(pc, b)][..0] == [];
    assert Logs(pc.codec, [], MADARA_ENGINE_ID) == [];
  }

  lemma OnlyOneLog(x: seq<Log>, l: Log, y: seq<Log>)
    ensures TheOnlyLog(x + [l] + y) == Ok(l) <==> x == [] && y == []
  {
    if x == [] && y == [] {
      assert x + [l] + y == [l];
    }
  }

  /** Readers find the block again exactly if nobody else has put a Madara log into the digest. */
  lemma BlockFoundAgain(pc: PayloadCodec, item: Item, others: Digest, post: Digest)
    requires PayloadsRoundTrip(pc)
    ensures (FindStarknetBlock(pc.codec, ItemDigest(pc, item) + others + [BlockLog(pc, item.block)] + post)
             == Ok(item.block))
       <==> Logs(pc.codec, others, MADARA_ENGINE_ID) == [] && Logs(pc.codec, post, MADARA_ENGINE_ID) == []
  {
    LogsOfFinalDigest(pc, item, others, post);
    OnlyOneLog(Logs(pc.codec, others, MADARA_ENGINE_ID), Block(item.block), Logs(pc.codec, post, MADARA_ENGINE_ID));
  }

  // ----- A chain of blocks

  /** Everything about a block that does not come from the feed. */
  datatype Surroundings = Surroundings(calls: seq<Call>, others: Digest, post: Digest)

  datatype Chain = Chain(storage: Storage, digests: seq<Digest>)

  /** The block that is made from the digest of an item. */
  function ItemBlock(pc: PayloadCodec, p: Storage, number: nat, item: Item, around: Surroundings): Option<Finalized> {
    AfterBlock(pc, p, number, ItemDigest(pc, item), around.calls, around.others)
  }

  /** The chain after making one block from each item; the first block has number base + 1. */
  function AfterBlocks(pc: PayloadCodec, p: Storage, base: nat, items: seq<Item>, around: seq<Surroundings>)
    : Option<Chain>
    requires |items| == |around|
  {
    if items == [] then Some(Chain(p, []))
    else
      var last := |items| - 1;
      match AfterBlocks(pc, p, base, items[..last], around[..last])
      case None => None
      case Some(c) =>
        match ItemBlock(pc, c.storage, base + last + 1, items[last], around[last])
        case None => None
        case Some(f) => Some(Chain(f.storage, c.digests + [f.digest + around[last].post]))
  }

  ghost predicate GoesThrough(base: nat, items: seq<Item>, around: seq<Surroundings>, k: nat)
    requires |items| == |around|
  {
    k < |items| ==> CallsOk(base + k + 1, around[k].calls) && HasBlockHash(items[k].block)
  }

  ghost predicate NoMadaraLogs(pc: PayloadCodec, s: Surroundings) {
    Logs(pc.codec, s.others, MADARA_ENGINE_ID) == [] && Logs(pc.codec, s.post, MADARA_ENGINE_ID) == []
  }

  /** What the k-th block of the chain must look like. */
  ghost predicate BlockRight(pc: PayloadCodec, base: nat, items: seq<Item>, around: seq<Surroundings>, c: Chain, k: nat)
    requires |items| == |around|
  {
    k < |items| ==>
      && k < |c.digests|
      && (NoMadaraLogs(pc, around[k]) ==> FindStarknetBlock(pc.codec, c.digests[k]) == Ok(items[k].block))
      && base + k + 1 in c.storage.blockHash
      && Some(c.storage.blockHash[base + k + 1]) == items[k].block.header.extraData
  }

  ghost predicate AllGoThrough(base: nat, items: seq<Item>, around: seq<Surroundings>)
    requires |items| == |around|
  {
    forall k :: GoesThrough(base, items, around, k)
  }

  /** The Starknet state after the updates of all items, one after the other. */
  function WithItems(p: Storage, items: seq<Item>): Storage {
    if items == [] then p else WithItem(WithItems(p, items[..|items| - 1]), items[|items| - 1])
  }

  ghost predicate SameState(p: Storage, q: Storage) {
    && p.nonces == q.nonces
    && p.contractClassHashes == q.contractClassHashes
    && p.compiledClassHashes == q.compiledClassHashes
    && p.contractClasses == q.contractClasses
    && p.contractAbis == q.contractAbis
  }

  ghost predicate ChainRight(pc: PayloadCodec, p: Storage, base: nat, items: seq<Item>, around: seq<Surroundings>,
                             c: Chain)
    requires |items| == |around|
  {
    && c.storage.seqAddrUpdate == FlagBefore(base + |items| + 1)
    && SameState(c.storage, WithItems(p, items))
    && |c.digests| == |items|
    && forall k :: BlockRight(pc, base, items, around, c, k)
  }

  lemma GoThroughStep(base: nat, items: seq<Item>, around: seq<Surroundings>)
    requires |items| == |around| > 0
    ensures var last := |items| - 1;
            AllGoThrough(base, items, around)
            <==> AllGoThrough(base, items[..last], around[..last]) && GoesThrough(base, items, around, last)
  {
    var last := |items| - 1;
    var items', around' := items[..last], around[..last];
    if AllGoThrough(base, items, around) {
      forall k: nat ensures GoesThrough(base, items', around', k) {
        assert GoesThrough(base, items, around, k);
      }
    }
    if AllGoThrough(base, items', around') && GoesThrough(base, items, around, last) {
      forall k: nat ensures GoesThrough(base, items, around, k) {
        assert GoesThrough(base, items', around', k);
      }
    }
  }

  lemma RightStep(pc: PayloadCodec, p: Storage, base: nat, items: seq<Item>, around: seq<Surroundings>,
                  c: Chain, c': Chain)
    requires |items| == |around| > 0
    requires ChainRight(pc, p, base, items[..|items| - 1], around[..|items| - 1], c)
    requires c'.storage.seqAddrUpdate == FlagBefore(base + |items| + 1)
    requires |c'.digests| == |items| && c'.digests[..|items| - 1] == c.digests
    requires SameState(c'.storage, WithItem(c.storage, items[|items| - 1]))
    requires c'.storage.blockHash.Keys == c.storage.blockHash.Keys + {base + |items|}
    requires forall n | n in c.storage.blockHash && n != base + |items| ::
               c'.storage.blockHash[n] == c.storage.blockHash[n]
    requires BlockRight(pc, base, items, around, c', |items| - 1)
    ensures ChainRight(pc, p, base, items, around, c')
  {
    var last := |items| - 1;
    forall k: nat ensures BlockRight(pc, base, items, around, c', k) {
      assert BlockRight(pc, base, items[..last], around[..last], c, k);
      if k < last {
        assert c'.digests[k] == c'.digests[..last][k];
      }
    }
  }

  lemma ChainStep(pc: PayloadCodec, p: Storage, base: nat, items: seq<Item>, around: seq<Surroundings>, c: Chain)
    requires PayloadsRoundTrip(pc) && |items| == |around| > 0
    requires ChainRight(pc, p, base, items[..|items| - 1], around[..|items| - 1], c)
    ensures var last := |items| - 1;
            var f := ItemBlock(pc, c.storage, base + last + 1, items[last], around[last]);
            && (f.Some? <==> GoesThrough(base, items, around, last))
            && (f.Some? ==> ChainRight(pc, p, base, items, around,
                                       Chain(f.value.storage, c.digests + [f.value.digest + around[last].post])))
  {
    var last := |items| - 1;
    BlockGoesThrough(pc, c.storage, base + last + 1, items[last], around[last].calls, around[last].others);
    BlockFoundAgain(pc, items[last], around[last].others, around[last].post);
    var f := ItemBlock(pc, c.storage, base + last + 1, items[last], around[last]);
    if f.Some? {
      var c' := Chain(f.value.storage, c.digests + [f.value.digest + around[last].post]);
      assert c'.digests[..last] == c.digests;
      RightStep(pc, p, base, items, around, c, c');
    }
  }

  /** The chain can be made exactly if every block goes through; then every block is right. */
  lemma {:induction false} ChainMeaning(pc: PayloadCodec, p: Storage, base: nat, items: seq<Item>,
                                        around: seq<Surroundings>)
    requires PayloadsRoundTrip(pc) && |items| == |around| && p.seqAddrUpdate == FlagBefore(base + 1)
    ensures var r := AfterBlocks(pc, p, base, items, around);
            && (r.Some? <==> AllGoThrough(base, items, around))
            && (r.Some? ==> ChainRight(pc, p, base, items, around, r.value))
    decreases items
  {
    if items != [] {
      var last := |items| - 1;
      ChainMeaning(pc, p, base, items[..last], around[..last]);
      GoThroughStep(base, items, around);
      var c := AfterBlocks(pc, p, base, items[..last], around[..last]);
      if c.Some? {
        ChainStep(pc, p, base, items, around, c.value);
      }
    }
  }

  /**
    From the feed to the readers: whatever the interleaving, if the inherents are called as they should be,
    the k-th block produced by the sync wraps exactly what was fetched for block first + k.
   */
  lemma FetchedBlocksAreFound(pc: PayloadCodec, p: Storage, base: nat, feed: Feed, first: nat, steps: seq<Step>,
                              around: seq<Surroundings>, k: nat)
    requires PayloadsRoundTrip(pc) && p.seqAddrUpdate == FlagBefore(base + 1)
    requires var items := Run(feed, first, steps).sealed;
             |items| == |around| && k < |items| && AllGoThrough(base, items, around)
    requires NoMadaraLogs(pc, around[k])
    ensures var items := Run(feed, first, steps).sealed;
            var r := AfterBlocks(pc, p, base, items, around);
            && r.Some? && k < |r.value.digests| && feed(first + k).Some?
            && FindStarknetBlock(pc.codec, r.value.digests[k]) == Ok(feed(first + k).value.block)
  {
    var items := Run(feed, first, steps).sealed;
    RunKeepsInv(feed, first, steps);
    ChainMeaning(pc, p, base, items, around);
    assert BlockRight(pc, base, items, around, AfterBlocks(pc, p, base, items, around).value, k);
  }
}
