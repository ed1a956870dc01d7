/** The transaction hashes that block events are paired with: the cached ones, or else computed ones. */
module EventHashes {
  import opened Primitives
  import opened TransactionHash
  import opened Blocks
  import opened Commitments
  import opened DigestLog
  import opened MappingSync
  import opened MappingIndex
  import opened MappingReorgs
  import opened EventPaging
  import opened EventAttribution

  /** The cache is asked first, by the hash of the Starknet block. */
  function BlockTxHashes(cfg: Config, db: Db, b: StarknetBlock): seq<Term> {
    if cfg.cacheMoreThings && HeaderHash(b.header) in db.transactionHashesCache
    then db.transactionHashesCache[HeaderHash(b.header)]
    else TransactionHashes(cfg, b)
  }

  /** The pending block has no number yet. */
  function PendingTxHashes(cfg: Config, b: StarknetBlock): (r: seq<Term>)
    ensures |r| == |b.transactions|
  {
    seq(|b.transactions|, k requires 0 <= k < |b.transactions| =>
      ComputeHash(PedersenHasher, b.transactions[k], cfg.chainId, false, None))
  }

  /** The hashes in the pending block are final exactly if no transaction's format depends on the number. */
  lemma PendingHashesFinal(cfg: Config, b: StarknetBlock)
    ensures PendingTxHashes(cfg, b) == TransactionHashes(cfg, b)
       <==> forall k | 0 <= k < |b.transactions| :: !NumberMatters(b.transactions[k], b.header.blockNumber)
  {
    var p, q := PendingTxHashes(cfg, b), TransactionHashes(cfg, b);
    SameLists(p, q);
    forall k | 0 <= k < |b.transactions|
      ensures p[k] == q[k] <==> !NumberMatters(b.transactions[k], b.header.blockNumber)
    {
      PendingHashIsFinal(PedersenHasher, b.transactions[k], cfg.chainId, false, b.header.blockNumber);
    }
  }

  // ----- The header hash determines the transaction hashes

  function Converted(cfg: Config, f: FetchedBlock): StarknetBlock {
    ConvertBlock(cfg.chainId, f)
  }

  /**
    Through the commitments, equal header hashes mean equal transaction hashes and, in the newer header
    format, equal events.
   */
  lemma HeaderBindsContents(cfg: Config, f: FetchedBlock, f': FetchedBlock)
    requires HeaderHash(Converted(cfg, f).header) == HeaderHash(Converted(cfg, f').header)
    ensures TransactionHashes(cfg, Converted(cfg, f)) == TransactionHashes(cfg, Converted(cfg, f'))
    ensures f.header.blockNumber == f'.header.blockNumber
    ensures f.header.blockNumber >= FIRST_CAIRO_0_7_BLOCK ==>
              AllReceiptEvents(f.receipts) == AllReceiptEvents(f'.receipts)
  {
    HeaderHashBinding(Converted(cfg, f).header, Converted(cfg, f').header);
    TransactionCommitmentBinds(cfg.chainId, f.transactions, f.header.blockNumber,
                               cfg.chainId, f'.transactions, f'.header.blockNumber);
    EventCommitmentBinds(AllReceiptEvents(f.receipts), AllReceiptEvents(f'.receipts));
  }

  /** Every wrapped block comes from the conversion of a fetched one. */
  ghost predicate AllConverted(cfg: Config, node: Node) {
    forall h | h in node.headers && DigestBlock(cfg, node.headers[h]).Ok? ::
      exists f :: Converted(cfg, f) == DigestBlock(cfg, node.headers[h]).value
  }

  // ----- Cached hashes

  /** The cached list of a Starknet block comes from the genesis, which commits no transactions. */
  ghost predicate CachedByGenesis(cfg: Config, node: Node, db: Db, key: Term) {
    && cfg.cacheMoreThings
    && key in db.transactionHashesCache
    && key in db.blockMapping && db.blockMapping[key] != []
    && var h := db.blockMapping[key][|db.blockMapping[key]| - 1];
       h in node.headers && node.headers[h].number == 0
  }

  /** The hashes are those of the block's transactions, unless the empty list of the genesis was cached. */
  lemma BlockTxHashesMeaning(cfg: Config, node: Node, db: Db, f: FetchedBlock)
    requires IndexSound(cfg, node, db) && AllConverted(cfg, node)
    ensures var b := Converted(cfg, f);
            BlockTxHashes(cfg, db, b)
            == if CachedByGenesis(cfg, node, db, HeaderHash(b.header)) then [] else TransactionHashes(cfg, b)
  {
    var b := Converted(cfg, f);
    var key := HeaderHash(b.header);
    assert CacheSound(cfg, node, db, key);
    if cfg.cacheMoreThings && key in db.transactionHashesCache {
      var h := db.blockMapping[key][|db.blockMapping[key]| - 1];
      assert Wraps(cfg, node, h, key);
      var f' :| Converted(cfg, f') == DigestBlock(cfg, node.headers[h]).value;
      HeaderBindsContents(cfg, f, f');
    }
  }

  // ----- The events of a fetched block

  /** What should come out for a block: its events in order, each with the hash of the emitting transaction. */
  function ReferenceEvents(cfg: Config, f: FetchedBlock, pending: bool): (r: seq<EmittedEvent>)
    requires |f.receipts| <= |f.transactions|
  {
    var b := Converted(cfg, f);
    var hashes := if pending then PendingTxHashes(cfg, b) else TransactionHashes(cfg, b);
    AllEmitted(b, pending, Attributed(f.receipts, hashes))
  }

  function AllEmitted(b: StarknetBlock, pending: bool, es: seq<HashedEvent>): (r: seq<EmittedEvent>)
    ensures |r| == |es|
  {
    seq(|es|, k requires 0 <= k < |es| => Emitted(b, pending, es[k]))
  }

  ghost predicate HasEvents(receipts: seq<Receipt>) {
    exists k :: 0 <= k < |receipts| && receipts[k].events != []
  }

  /** The answer for a confirmed block. No value means that an index is out of range. */
  function ReadBlock(cfg: Config, db: Db, f: FetchedBlock): Option<seq<EmittedEvent>> {
    GetBlockEvents(Converted(cfg, f), false, BlockTxHashes(cfg, db, Converted(cfg, f)))
  }

  function ReadPending(cfg: Config, f: FetchedBlock): Option<seq<EmittedEvent>> {
    GetBlockEvents(Converted(cfg, f), true, PendingTxHashes(cfg, Converted(cfg, f)))
  }

  /**
    In every state of the mapping sync, reading the events of a fetched block goes out of range exactly if
    the block has events and the genesis has cached its hashes. Otherwise all its events come back, in order,
    each with the hash of the transaction that emitted it.
   */
  lemma EventsNameTransactions(cfg: Config, node: Node, db: Db, faithful: bool, f: FetchedBlock)
    requires Inv(cfg, node, db, faithful) && AllConverted(cfg, node) && |f.receipts| <= |f.transactions|
    ensures ReadBlock(cfg, db, f)
         == if CachedByGenesis(cfg, node, db, HeaderHash(Converted(cfg, f).header)) && HasEvents(f.receipts) then None
            else Some(ReferenceEvents(cfg, f, false))
    ensures |ReferenceEvents(cfg, f, false)| == Converted(cfg, f).header.eventCount
  {
    var b := Converted(cfg, f);
    var hashes := TransactionHashes(cfg, b);
    AttributionIsRight(cfg.chainId, f, hashes);
    BlockTxHashesMeaning(cfg, node, db, f);
    if CachedByGenesis(cfg, node, db, HeaderHash(b.header)) {
      FlattenInRange(f.receipts, 0, []);
      if !HasEvents(f.receipts) {
        NoEvents(f.receipts, 0, hashes);
      }
    }
  }

  lemma {:induction false} NoEvents(receipts: seq<Receipt>, i: nat, hashes: seq<Term>)
    requires !HasEvents(receipts) && |receipts| <= |hashes|
    ensures OrderedEventsFrom(receipts, i) == [] && Attributed(receipts, hashes) == []
    decreases receipts
  {
    if receipts != [] {
      assert receipts[0].events == [];
      forall k | 0 <= k < |receipts[1..]| ensures receipts[1..][k].events == [] {
        assert receipts[1..][k] == receipts[k + 1];
      }
      NoEvents(receipts[1..], i + 1, hashes[1..]);
    }
  }

  /** The events of a pending block always come back. */
  lemma PendingEventsNameTransactions(cfg: Config, f: FetchedBlock)
    requires |f.receipts| <= |f.transactions|
    ensures ReadPending(cfg, f) == Some(ReferenceEvents(cfg, f, true))
    ensures |ReferenceEvents(cfg, f, true)| == Converted(cfg, f).header.eventCount
  {
    AttributionIsRight(cfg.chainId, f, PendingTxHashes(cfg, Converted(cfg, f)));
  }

  /** Each of these events was emitted by a transaction of the block, and comes with its hash. */
  lemma ReferenceNamesEmitters(cfg: Config, f: FetchedBlock, pending: bool, k: nat)
    requires |f.receipts| <= |f.transactions| && k < |ReferenceEvents(cfg, f, pending)|
    ensures var e := ReferenceEvents(cfg, f, pending)[k];
            var number := if pending then None else Some(f.header.blockNumber);
            exists i: nat :: i < |f.receipts| && EmittedBy(f.receipts, i, Event(e.fromAddress, e.keys, e.data))
                          && e.transactionHash
                             == ComputeHash(PedersenHasher, f.transactions[i], cfg.chainId, false, number)
  {
    var b := Converted(cfg, f);
    var hashes := if pending then PendingTxHashes(cfg, b) else TransactionHashes(cfg, b);
    AttributedEvent(f.receipts, hashes, k);
  }

  // ----- The events of the genesis

  /** A chain of the genesis alone, which wraps a block. */
  function GenesisOnly(d: Digest): Node {
    Node(map[0 := SubstrateHeader(0, 0, d)], [0], map[0 := 0])
  }

  /** A run of one round, with the cache on, after which reading the events of the genesis goes out of range. */
  lemma GenesisEventsOutOfRange(cfg: Config, d: Digest, f: FetchedBlock) returns (run: seq<System>)
    requires cfg.cacheMoreThings && cfg.syncFrom == 0
    requires FindStarknetBlock(cfg.codec, d) == Ok(Converted(cfg, f))
    requires |f.receipts| <= |f.transactions| && HasEvents(f.receipts)
    ensures IsRun(cfg, run, true)
    ensures var s := run[|run| - 1];
            && IsCanon(s.node, 0) && Wraps(cfg, s.node, 0, HeaderHash(Converted(cfg, f).header))
            && ReadBlock(cfg, s.db, f) == None
  {
    var node, b := GenesisOnly(d), Converted(cfg, f);
    assert ValidNode(node) by {
      forall h ensures ParentKnown(node, h) {}
    }
    assert StartTips(node, EMPTY_DB) == [] + [0];
    VisitRound(cfg, node, EMPTY_DB, 0, []);
    var db := Visited(cfg, node, EMPTY_DB, 0, []);
    run := [System(node, EMPTY_DB), System(node, db)];
    assert BlockTxHashes(cfg, db, b) == [];
    FlattenInRange(f.receipts, 0, []);
  }
}
