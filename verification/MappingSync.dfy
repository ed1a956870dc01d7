/**
  The mapping sync: walking a growing tree of Substrate blocks from its leaves towards the genesis, and
  indexing the Starknet block that each of them wraps.

  This file states what the database operations and one sync round do to the database, as functions on
  its contents; `MappingSyncWorker` has the code. The lemmas are about every run of imports, reorgs and
  sync rounds.
 */
module MappingSync {
  import opened Primitives
  import opened TransactionHash
  import opened Blocks
  import opened DigestLog

  /** The hash of a Substrate block. */
  type Hash = nat

  datatype SubstrateHeader = SubstrateHeader(number: nat, parentHash: Hash, digest: Digest)

  /** The Substrate node: all known headers, the leaves, and the canonical chain by number. */
  datatype Node = Node(headers: map<Hash, SubstrateHeader>, leaves: seq<Hash>, canonical: map<nat, Hash>)

  /** What the client answers during a round: the headers it can read, and whether the runtime answers. */
  datatype Client = Client(headers: map<Hash, SubstrateHeader>, runtimeAnswers: bool)

  datatype Config = Config(codec: Codec, chainId: Felt, syncFrom: nat, cacheMoreThings: bool)

  datatype MappingCommitment = MappingCommitment(
    blockNumber: nat,
    blockHash: Hash,
    starknetBlockHash: Term,
    transactionHashes: seq<Term>)

  /** The contents of the mapping columns and of the stored tips. */
  datatype Db = Db(
    synced: set<Hash>,
    blockMapping: map<Term, seq<Hash>>,
    transactionMapping: map<Term, Hash>,
    transactionHashesCache: map<Term, seq<Term>>,
    blockHashesCache: map<nat, Term>,
    tips: seq<Hash>)

  const EMPTY_DB: Db := Db({}, map[], map[], map[], map[], [])

  // ----- Writes

  function WithNone(db: Db, h: Hash): Db {
    db.(synced := db.synced + {h})
  }

  function WithHashes(cfg: Config, db: Db, c: MappingCommitment): Db {
    var hashes := if c.starknetBlockHash in db.blockMapping
                  then db.blockMapping[c.starknetBlockHash] + [c.blockHash] else [c.blockHash];
    db.(synced := db.synced + {c.blockHash},
        blockMapping := db.blockMapping[c.starknetBlockHash := hashes],
        transactionMapping := db.transactionMapping + map t | t in c.transactionHashes :: c.blockHash,
        transactionHashesCache :=
          if cfg.cacheMoreThings then db.transactionHashesCache[c.starknetBlockHash := c.transactionHashes]
          else db.transactionHashesCache,
        blockHashesCache :=
          if cfg.cacheMoreThings then db.blockHashesCache[c.blockNumber := c.starknetBlockHash]
          else db.blockHashesCache)
  }

  // ----- One block

  function DigestBlock(cfg: Config, header: SubstrateHeader): Result<StarknetBlock, FindLogError> {
    FindStarknetBlock(cfg.codec, header.digest)
  }

  function TransactionHashes(cfg: Config, b: StarknetBlock): (r: seq<Term>)
    ensures |r| == |b.transactions|
  {
    seq(|b.transactions|, k requires 0 <= k < |b.transactions| =>
      ComputeHash(PedersenHasher, b.transactions[k], cfg.chainId, false, Some(b.header.blockNumber)))
  }

  /** The transaction hashes that are committed for a block; the genesis commits none. */
  function CommittedHashes(cfg: Config, header: SubstrateHeader, b: StarknetBlock): seq<Term> {
    if header.number == 0 then [] else TransactionHashes(cfg, b)
  }

  function CommitmentFor(cfg: Config, h: Hash, header: SubstrateHeader, b: StarknetBlock): MappingCommitment {
    MappingCommitment(b.header.blockNumber, h, HeaderHash(b.header), CommittedHashes(cfg, header, b))
  }

  /** The wrapped block as the client reads it; no value if that fails. */
  function StoredBlock(cfg: Config, client: Client, h: Hash): Option<StarknetBlock> {
    if h !in client.headers then None
    else match DigestBlock(cfg, client.headers[h])
      case Ok(b) => Some(b)
      case Err(_) => None
  }

  /** The database after syncing a block; no value on an error, which leaves the database as it was. */
  function AfterSyncBlock(cfg: Config, client: Client, db: Db, h: Hash, header: SubstrateHeader): Option<Db> {
    match DigestBlock(cfg, header)
    case Ok(b) =>
      (match StoredBlock(cfg, client, h)
       case Some(stored) =>
         if HeaderHash(b.header) != HeaderHash(stored.header) then None
         else if !client.runtimeAnswers then None
         else Some(WithHashes(cfg, db,
                MappingCommitment(b.header.blockNumber, h, HeaderHash(b.header), TransactionHashes(cfg, b))))
       case None => Some(WithNone(db, h)))
    case Err(NotLog) => Some(WithNone(db, h))
    case Err(MultipleLogs) => None
  }

  function AfterSyncGenesisBlock(cfg: Config, db: Db, h: Hash, header: SubstrateHeader): Option<Db> {
    match DigestBlock(cfg, header)
    case Ok(b) =>
      Some(WithHashes(cfg, db, MappingCommitment(b.header.blockNumber, h, HeaderHash(b.header), [])))
    case Err(NotLog) => Some(WithNone(db, h))
    case Err(MultipleLogs) => None
  }

  // ----- One round

  datatype Fetched = Skip | Found(header: SubstrateHeader) | Failed

  function FetchHeader(cfg: Config, node: Node, db: Db, tip: Hash): Fetched {
    if tip in db.synced then Skip
    else if tip !in node.headers then Failed
    else if node.headers[tip].number >= cfg.syncFrom then Found(node.headers[tip])
    else Skip
  }

  datatype Popped = Exhausted | Operating(hash: Hash, header: SubstrateHeader, rest: seq<Hash>) | NotFound

  /** Pops tips until one of them has to be synced. */
  function PopTips(cfg: Config, node: Node, db: Db, tips: seq<Hash>): Popped {
    if tips == [] then
      Exhausted
    else
      var tip, rest := tips[|tips| - 1], tips[..|tips| - 1];
      match FetchHeader(cfg, node, db, tip)
      case Skip => PopTips(cfg, node, db, rest)
      case Found(header) => Operating(tip, header, rest)
      case Failed => NotFound
  }

  /** A block was synced (`Ok(true)`), there was nothing to sync (`Ok(false)`), or an error stopped the round. */
  datatype RoundResult = Advanced | Idle | Stopped

  datatype Round = Round(result: RoundResult, db: Db)

  function StartTips(node: Node, db: Db): seq<Hash> {
    if db.tips == [] then node.leaves else db.tips
  }

  function AfterSyncOneBlock(cfg: Config, node: Node, client: Client, db: Db): Round {
    if StartTips(node, db) == [] then
      Round(Idle, db)
    else match PopTips(cfg, node, db, StartTips(node, db))
      case NotFound => Round(Stopped, db)
      case Exhausted => Round(Idle, db.(tips := []))
      case Operating(h, header, rest) =>
        if header.number == 0 then
          match AfterSyncGenesisBlock(cfg, db, h, header)
          case None => Round(Stopped, db)
          case Some(db') => Round(Advanced, db'.(tips := rest))
        else
          match AfterSyncBlock(cfg, client, db, h, header)
          case None => Round(Stopped, db)
          case Some(db') => Round(Advanced, db'.(tips := rest + [header.parentHash]))
  }

  /** Up to `limit` tries; the first one that syncs a block, or fails, is the last. */
  function AfterSyncBlocks(cfg: Config, node: Node, client: Client, db: Db, limit: nat): Round
    decreases limit
  {
    if limit == 0 then
      Round(Idle, db)
    else
      var r := AfterSyncOneBlock(cfg, node, client, db);
      if r.result == Idle then AfterSyncBlocks(cfg, node, client, r.db, limit - 1) else r
  }

  // ----- Trees

  ghost predicate ParentKnown(node: Node, h: Hash) {
    h in node.headers && node.headers[h].number > 0 ==>
      && node.headers[h].parentHash in node.headers
      && node.headers[node.headers[h].parentHash].number == node.headers[h].number - 1
  }

  ghost predicate ValidNode(node: Node) {
    && (forall h {:trigger ParentKnown(node, h)} :: ParentKnown(node, h))
    && (forall k | 0 <= k < |node.leaves| :: node.leaves[k] in node.headers)
    && (forall n | n in node.canonical ::
          node.canonical[n] in node.headers && node.headers[node.canonical[n]].number == n)
  }

  /** Headers are only added. Leaves and canonical chain may change in any way. */
  ghost predicate Grows(node: Node, node': Node) {
    forall h | h in node.headers :: h in node'.headers && node'.headers[h] == node.headers[h]
  }

  function AncestorAt(node: Node, h: Hash, n: nat): (a: Hash)
    requires ValidNode(node) && h in node.headers && n <= node.headers[h].number
    ensures a in node.headers && node.headers[a].number == n
    decreases node.headers[h].number
  {
    if node.headers[h].number == n then h
    else
      assert ParentKnown(node, h);
      AncestorAt(node, node.headers[h].parentHash, n)
  }

  /** Every block is a leaf or an ancestor of one. */
  ghost predicate Covered(node: Node)
    requires ValidNode(node)
  {
    forall h {:trigger HasLeafAbove(node, h)} :: h in node.headers ==> HasLeafAbove(node, h)
  }

  ghost predicate HasLeafAbove(node: Node, h: Hash)
    requires ValidNode(node)
  {
    exists l :: LeafAbove(node, h, l)
  }

  ghost predicate LeafAbove(node: Node, h: Hash, l: Hash)
    requires ValidNode(node)
  {
    && h in node.headers && l in node.headers && l in node.leaves
    && node.headers[h].number <= node.headers[l].number
    && AncestorAt(node, l, node.headers[h].number) == h
  }

  /** It is enough that every block without a child is a leaf. */
  ghost predicate LeavesComplete(node: Node) {
    forall h {:trigger HasChild(node, h)} :: h in node.headers && h !in node.leaves ==> HasChild(node, h)
  }

  ghost predicate HasChild(node: Node, h: Hash) {
    exists c :: IsChild(node, c, h)
  }

  ghost predicate IsChild(node: Node, c: Hash, h: Hash) {
    c in node.headers && node.headers[c].number > 0 && node.headers[c].parentHash == h
  }

  ghost function Higher(node: Node, n: nat): set<Hash> {
    set g | g in node.headers && node.headers[g].number > n
  }

  lemma {:induction false} SomeLeafAbove(node: Node, h: Hash) returns (l: Hash)
    requires ValidNode(node) && LeavesComplete(node) && h in node.headers
    ensures LeafAbove(node, h, l)
    decreases |Higher(node, node.headers[h].number)|
  {
    if h in node.leaves {
      return h;
    }
    var n := node.headers[h].number;
    assert HasChild(node, h);
    var c :| IsChild(node, c, h);
    assert ParentKnown(node, c);
    var above, here := Higher(node, n + 1), Higher(node, n);
    assert here == above + (here - above) && c in here - above;
    l := SomeLeafAbove(node, c);
    AncestorStep(node, l, n + 1);
  }

  lemma {:induction false} AncestorStep(node: Node, l: Hash, n: nat)
    requires ValidNode(node) && l in node.headers && 0 < n <= node.headers[l].number
    ensures AncestorAt(node, l, n - 1) == node.headers[AncestorAt(node, l, n)].parentHash
    decreases node.headers[l].number
  {
    assert ParentKnown(node, l);
    if node.headers[l].number > n {
      AncestorStep(node, node.headers[l].parentHash, n);
    } else {
      assert AncestorAt(node, node.headers[l].parentHash, n - 1) == node.headers[l].parentHash;
    }
  }

  lemma CompleteLeavesCover(node: Node)
    requires ValidNode(node) && LeavesComplete(node)
    ensures Covered(node)
  {
    forall h | h in node.headers ensures HasLeafAbove(node, h) {
      var l := SomeLeafAbove(node, h);
    }
  }
}
