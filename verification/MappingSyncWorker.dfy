/** The mapping databases, the sync rounds and the worker that runs them. */
module MappingSyncWorker {
  import opened Primitives
  import opened TransactionHash
  import opened Blocks
  import opened MappingSync
  import opened MappingSyncRuns

  class MappingDb {
    var synced: set<Hash>
    var blockMapping: map<Term, seq<Hash>>
    var transactionMapping: map<Term, Hash>
    var transactionHashesCache: map<Term, seq<Term>>
    var blockHashesCache: map<nat, Term>
    const cacheMoreThings: bool

    constructor (cacheMoreThings: bool)
      ensures this.cacheMoreThings == cacheMoreThings
      ensures Contents([]) == EMPTY_DB
    {
      this.cacheMoreThings := cacheMoreThings;
      synced, blockMapping, transactionMapping := {}, map[], map[];
      transactionHashesCache, blockHashesCache := map[], map[];
    }

    function Contents(tips: seq<Hash>): Db
      reads this
    {
      Db(synced, blockMapping, transactionMapping, transactionHashesCache, blockHashesCache, tips)
    }

    predicate IsSynced(h: Hash)
      reads this
    {
      h in synced
    }

    method WriteNone(h: Hash)
      modifies this
      ensures forall tips :: Contents(tips) == WithNone(old(Contents(tips)), h)
    {
      synced := synced + {h};
    }

    method WithTransactions(hashes: seq<Term>, blockHash: Hash) returns (transactions: map<Term, Hash>)
      ensures transactions == transactionMapping + map t | t in hashes :: blockHash
    {
      transactions := transactionMapping;
      var i := 0;
      while i < |hashes|
        invariant 0 <= i <= |hashes|
        invariant transactions == transactionMapping + map t | t in hashes[..i] :: blockHash
      {
        assert hashes[..i + 1] == hashes[..i] + [hashes[i]];
        transactions := transactions[hashes[i] := blockHash];
        i := i + 1;
      }
      assert hashes[..i] == hashes;
    }

    /** All columns change in one write at the end. */
    method WriteHashes(cfg: Config, c: MappingCommitment)
      requires cfg.cacheMoreThings == cacheMoreThings
      modifies this
      ensures forall tips :: Contents(tips) == WithHashes(cfg, old(Contents(tips)), c)
    {
      var substrateHashes := if c.starknetBlockHash in blockMapping
                             then blockMapping[c.starknetBlockHash] + [c.blockHash] else [c.blockHash];
      var transactions := WithTransactions(c.transactionHashes, c.blockHash);
      blockMapping := blockMapping[c.starknetBlockHash := substrateHashes];
      synced := synced + {c.blockHash};
      transactionMapping := transactions;
      if cacheMoreThings {
        transactionHashesCache := transactionHashesCache[c.starknetBlockHash := c.transactionHashes];
        blockHashesCache := blockHashesCache[c.blockNumber := c.starknetBlockHash];
      }
    }
  }

  class MetaDb {
    var currentSyncingTips: seq<Hash>

    constructor ()
      ensures currentSyncingTips == []
    {
      currentSyncingTips := [];
    }

    method WriteCurrentSyncingTips(tips: seq<Hash>)
      modifies this
      ensures currentSyncingTips == tips
    {
      currentSyncingTips := tips;
    }
  }

  ghost function View(mapping: MappingDb, meta: MetaDb): Db
    reads mapping, meta
  {
    mapping.Contents(meta.currentSyncingTips)
  }

  method SyncBlock(cfg: Config, client: Client, mapping: MappingDb, ghost meta: MetaDb,
                   h: Hash, header: SubstrateHeader)
    returns (ok: bool)
    requires cfg.cacheMoreThings == mapping.cacheMoreThings
    modifies mapping
    ensures match AfterSyncBlock(cfg, client, old(View(mapping, meta)), h, header)
            case Some(db) => ok && View(mapping, meta) == db
            case None => !ok && View(mapping, meta) == old(View(mapping, meta))
  {
    match DigestBlock(cfg, header) {
      case Ok(b) =>
        match StoredBlock(cfg, client, h) {
          case Some(stored) =>
            if HeaderHash(b.header) != HeaderHash(stored.header) || !client.runtimeAnswers {
              return false;
            }
            mapping.WriteHashes(cfg,
              MappingCommitment(b.header.blockNumber, h, HeaderHash(b.header), TransactionHashes(cfg, b)));
          case None =>
            mapping.WriteNone(h);
        }
      case Err(NotLog) =>
        mapping.WriteNone(h);
      case Err(MultipleLogs) =>
        return false;
    }
    ok := true;
  }

  method SyncGenesisBlock(cfg: Config, mapping: MappingDb, ghost meta: MetaDb, h: Hash, header: SubstrateHeader)
    returns (ok: bool)
    requires cfg.cacheMoreThings == mapping.cacheMoreThings
    modifies mapping
    ensures match AfterSyncGenesisBlock(cfg, old(View(mapping, meta)), h, header)
            case Some(db) => ok && View(mapping, meta) == db
            case None => !ok && View(mapping, meta) == old(View(mapping, meta))
  {
    match DigestBlock(cfg, header) {
      case Ok(b) =>
        mapping.WriteHashes(cfg, MappingCommitment(b.header.blockNumber, h, HeaderHash(b.header), []));
      case Err(NotLog) =>
        mapping.WriteNone(h);
      case Err(MultipleLogs) =>
        return false;
    }
    ok := true;
  }

  method SyncOneBlock(cfg: Config, node: Node, client: Client, mapping: MappingDb, meta: MetaDb)
    returns (result: RoundResult)
    requires cfg.cacheMoreThings == mapping.cacheMoreThings
    modifies mapping, meta
    ensures Round(result, View(mapping, meta)) == AfterSyncOneBlock(cfg, node, client, old(View(mapping, meta)))
  {
    ghost var db := View(mapping, meta);
    var tips := meta.currentSyncingTips;
    if tips == [] {
      if node.leaves == [] {
        return Idle;
      }
      tips := node.leaves;
    }
    ghost var start := tips;
    var operating: Option<(Hash, SubstrateHeader)> := None;
    while tips != []
      invariant PopTips(cfg, node, db, start) == PopTips(cfg, node, db, tips)
      decreases |tips|
    {
      var tip := tips[|tips| - 1];
      tips := tips[..|tips| - 1];
      if !mapping.IsSynced(tip) {
        if tip !in node.headers {
          return Stopped;
        }
        if node.headers[tip].number >= cfg.syncFrom {
          operating := Some((tip, node.headers[tip]));
          break;
        }
      }
    }
    if operating.None? {
      meta.WriteCurrentSyncingTips(tips);
      return Idle;
    }
    var (h, header) := operating.value;
    assert PopTips(cfg, node, db, start) == Operating(h, header, tips);
    if header.number == 0 {
      var ok := SyncGenesisBlock(cfg, mapping, meta, h, header);
      if !ok {
        return Stopped;
      }
    } else {
      var ok := SyncBlock(cfg, client, mapping, meta, h, header);
      if !ok {
        return Stopped;
      }
      tips := tips + [header.parentHash];
    }
    meta.WriteCurrentSyncingTips(tips);
    result := Advanced;
  }

  /** The disjunction is lazy: once a block is synced, the remaining iterations do nothing. */
  method SyncBlocks(cfg: Config, node: Node, client: Client, mapping: MappingDb, meta: MetaDb, limit: nat)
    returns (result: RoundResult)
    requires cfg.cacheMoreThings == mapping.cacheMoreThings
    modifies mapping, meta
    ensures Round(result, View(mapping, meta)) == AfterSyncBlocks(cfg, node, client, old(View(mapping, meta)), limit)
  {
    ghost var whole := AfterSyncBlocks(cfg, node, client, View(mapping, meta), limit);
    var syncedAny := false;
    for i := 0 to limit
      invariant if syncedAny then Round(Advanced, View(mapping, meta)) == whole
                else AfterSyncBlocks(cfg, node, client, View(mapping, meta), limit - i) == whole
    {
      if !syncedAny {
        var r := SyncOneBlock(cfg, node, client, mapping, meta);
        if r == Stopped {
          return Stopped;
        }
        syncedAny := r == Advanced;
      }
    }
    result := if syncedAny then Advanced else Idle;
  }

  // ----- The worker

  datatype Notification = Imported | Closed

  datatype Poll = Pending | Ready | Finished

  datatype WorkerState = WorkerState(haveNext: bool, delayArmed: bool, db: Db)

  /** What a poll sees: whether blocks were imported, whether that stream ended, whether the delay is over. */
  datatype Signals = Signals(imported: bool, closed: bool, delayOver: bool)

  const QUIET: Signals := Signals(false, false, false)

  function PollSpec(cfg: Config, node: Node, client: Client, limit: nat, w: WorkerState, s: Signals)
    : (WorkerState, Poll)
  {
    if s.closed then
      (w, Finished)
    else if s.imported || s.delayOver || w.haveNext then
      var r := AfterSyncBlocks(cfg, node, client, w.db, limit);
      (WorkerState(r.result == Advanced, false, r.db), Ready)
    else
      (w.(delayArmed := true), Pending)
  }

  function SignalsOf(notifications: seq<Notification>, delayOver: bool): Signals {
    Signals(notifications != [], Closed in notifications, delayOver)
  }

  class Worker {
    var haveNext: bool
    var delayArmed: bool
    const mapping: MappingDb
    const meta: MetaDb
    const retryTimes: nat

    constructor (mapping: MappingDb, meta: MetaDb, retryTimes: nat)
      ensures this.mapping == mapping && this.meta == meta && this.retryTimes == retryTimes
      ensures haveNext && !delayArmed
    {
      this.mapping, this.meta, this.retryTimes := mapping, meta, retryTimes;
      haveNext, delayArmed := true, false;
    }

    ghost function State(): WorkerState
      reads this, mapping, meta
    {
      WorkerState(haveNext, delayArmed, View(mapping, meta))
    }

    /** `notifications` are the results of polling the import stream until it is pending. */
    method PollNext(cfg: Config, node: Node, client: Client, notifications: seq<Notification>, delayOver: bool)
      returns (poll: Poll)
      requires cfg.cacheMoreThings == mapping.cacheMoreThings
      modifies this, mapping, meta
      ensures (State(), poll)
           == PollSpec(cfg, node, client, retryTimes, old(State()), SignalsOf(notifications, delayOver))
    {
      var fire := false;
      var i := 0;
      while i < |notifications|
        invariant 0 <= i <= |notifications|
        invariant fire == (i > 0)
        invariant forall k | 0 <= k < i :: notifications[k] != Closed
      {
        if notifications[i] == Closed {
          return Finished;
        }
        fire := true;
        i := i + 1;
      }
      delayArmed := true;
      if delayOver {
        fire := true;
      }
      if haveNext {
        fire := true;
      }
      if fire {
        delayArmed := false;
        var r := SyncBlocks(cfg, node, client, mapping, meta, retryTimes);
        haveNext := r == Advanced;
        poll := Ready;
      } else {
        poll := Pending;
      }
    }
  }

  /** The worker after `k` polls without any signal. */
  function Polled(cfg: Config, node: Node, client: Client, limit: nat, w: WorkerState, k: nat): WorkerState {
    if k == 0 then w else PollSpec(cfg, node, client, limit, Polled(cfg, node, client, limit, w, k - 1), QUIET).0
  }

  /** The worker, woken up with `todo` blocks to sync, after `k` polls: one block a poll, then asleep. */
  ghost predicate Drained(cfg: Config, node: Node, todo: nat, w: WorkerState, k: nat) {
    && WalkInv(cfg, node, w.db)
    && w.haveNext == (k <= todo)
    && |Unsynced(cfg, node, w.db)| == (if k <= todo then todo - k else 0)
    && (k > todo ==> AllSynced(cfg, node, w.db))
  }

  lemma DrainStep(cfg: Config, node: Node, client: Client, limit: nat, todo: nat, w: WorkerState, k: nat)
    requires Drained(cfg, node, todo, w, k)
    requires Covered(node) && NoErrors(cfg, node, client) && limit >= 2
    ensures var (w', poll) := PollSpec(cfg, node, client, limit, w, QUIET);
            Drained(cfg, node, todo, w', k + 1) && (poll == Pending <==> k > todo)
  {
    if w.haveNext {
      RoundKeepsWalkInv(cfg, node, client, w.db, limit);
      RoundProgress(cfg, node, client, w.db, limit);
      if AfterSyncBlocks(cfg, node, client, w.db, limit).result == Idle {
        Completeness(cfg, node, client, w.db, limit);
        assert Unsynced(cfg, node, w.db) == {};
      }
    }
  }

  /** Imported blocks, the delay, and unfinished work wake the worker up. */
  predicate Wakes(w: WorkerState, s: Signals) {
    !s.closed && (s.imported || s.delayOver || w.haveNext)
  }

  /**
    Once woken up, the worker keeps itself running until every block of every fork is synced, one block a
    poll, and then goes to sleep. It needs no signal after the first one.
   */
  lemma {:induction false} WorkerDrains(cfg: Config, node: Node, client: Client, limit: nat,
                                        w: WorkerState, s: Signals, k: nat)
    requires WalkInv(cfg, node, w.db) && Covered(node) && NoErrors(cfg, node, client) && limit >= 2 && Wakes(w, s)
    ensures var woken := PollSpec(cfg, node, client, limit, w, s).0;
            Drained(cfg, node, |Unsynced(cfg, node, w.db)|, Polled(cfg, node, client, limit, woken, k), k + 1)
    decreases k
  {
    var todo := |Unsynced(cfg, node, w.db)|;
    if k == 0 {
      var awake := w.(haveNext := true);
      assert PollSpec(cfg, node, client, limit, w, s) == PollSpec(cfg, node, client, limit, awake, QUIET);
      DrainStep(cfg, node, client, limit, todo, awake, 0);
    } else {
      var woken := PollSpec(cfg, node, client, limit, w, s).0;
      WorkerDrains(cfg, node, client, limit, w, s, k - 1);
      DrainStep(cfg, node, client, limit, todo, Polled(cfg, node, client, limit, woken, k - 1), k);
    }
  }
}
