/** What holds of the mapping database in every run. */
module MappingSyncRuns {
  import opened Primitives
  import opened DigestLog
  import opened MappingSync

  // ----- The walk: no gap between synced blocks and pending tips

  /** A synced block above `syncFrom` has a parent that is synced or is going to be visited. */
  ghost predicate ParentHandled(cfg: Config, node: Node, db: Db, h: Hash) {
    h in db.synced && h in node.headers && node.headers[h].number > cfg.syncFrom ==>
      node.headers[h].parentHash in db.synced || node.headers[h].parentHash in db.tips
  }

  ghost predicate NoGap(cfg: Config, node: Node, db: Db) {
    forall h {:trigger ParentHandled(cfg, node, db, h)} :: ParentHandled(cfg, node, db, h)
  }

  ghost predicate WalkInv(cfg: Config, node: Node, db: Db) {
    && ValidNode(node)
    && (forall h | h in db.synced :: h in node.headers && node.headers[h].number >= cfg.syncFrom)
    && (forall h | h in db.tips :: h in node.headers)
    && NoGap(cfg, node, db)
  }

  /** A tip that a round drops without syncing it. */
  ghost predicate Dropped(cfg: Config, node: Node, db: Db, t: Hash) {
    t in db.synced || (t in node.headers && node.headers[t].number < cfg.syncFrom)
  }

  lemma {:induction false} PopTipsMeaning(cfg: Config, node: Node, db: Db, tips: seq<Hash>)
    requires forall t | t in tips :: t in node.headers
    ensures var p := PopTips(cfg, node, db, tips);
            match p
            case NotFound => false
            case Exhausted => forall t | t in tips :: Dropped(cfg, node, db, t)
            case Operating(h, header, rest) =>
              && h in tips && h !in db.synced && h in node.headers && header == node.headers[h]
              && header.number >= cfg.syncFrom
              && (forall t | t in rest :: t in tips)
              && (forall t | t in tips :: t in rest || t == h || Dropped(cfg, node, db, t))
  {
    if tips != [] {
      var tip, rest := tips[|tips| - 1], tips[..|tips| - 1];
      assert tips == rest + [tip];
      if FetchHeader(cfg, node, db, tip).Skip? {
        PopTipsMeaning(cfg, node, db, rest);
      }
    }
  }

  /** The only effect of writing a block on the set of synced blocks. */
  lemma SyncedAfterBlock(cfg: Config, client: Client, db: Db, h: Hash, header: SubstrateHeader)
    ensures var r := AfterSyncBlock(cfg, client, db, h, header);
            r.Some? ==> r.value.synced == db.synced + {h} && r.value.tips == db.tips
    ensures var r := AfterSyncGenesisBlock(cfg, db, h, header);
            r.Some? ==> r.value.synced == db.synced + {h} && r.value.tips == db.tips
  {
  }

  /** `h` gets synced, `rest` stays of the tips, and the parent of `h` joins them. */
  ghost predicate SyncedOne(cfg: Config, node: Node, db: Db, db': Db, h: Hash, rest: seq<Hash>) {
    && h in node.headers && h !in db.synced && node.headers[h].number >= cfg.syncFrom
    && db'.synced == db.synced + {h}
    && (forall t | t in rest :: t in StartTips(node, db))
    && (forall t | t in StartTips(node, db) :: t in rest || t == h || Dropped(cfg, node, db, t))
    && db'.tips == if node.headers[h].number == 0 then rest else rest + [node.headers[h].parentHash]
  }

  /** What a try does to synced blocks and tips. */
  ghost predicate Outcome(cfg: Config, node: Node, db: Db, r: Round) {
    match r.result
    case Stopped => r.db == db
    case Idle => r.db == db.(tips := []) && forall t | t in StartTips(node, db) :: Dropped(cfg, node, db, t)
    case Advanced => exists h, rest :: SyncedOne(cfg, node, db, r.db, h, rest)
  }

  lemma OneBlockOutcome(cfg: Config, node: Node, client: Client, db: Db)
    requires WalkInv(cfg, node, db)
    ensures Outcome(cfg, node, db, AfterSyncOneBlock(cfg, node, client, db))
  {
    var tips := StartTips(node, db);
    PopTipsMeaning(cfg, node, db, tips);
    var p := PopTips(cfg, node, db, tips);
    if tips != [] && p.Operating? {
      SyncedAfterBlock(cfg, client, db, p.hash, p.header);
      var r := AfterSyncOneBlock(cfg, node, client, db);
      if r.result == Advanced {
        assert SyncedOne(cfg, node, db, r.db, p.hash, p.rest);
      }
    }
  }

  lemma OutcomeKeepsWalkInv(cfg: Config, node: Node, db: Db, r: Round)
    requires WalkInv(cfg, node, db) && Outcome(cfg, node, db, r)
    ensures WalkInv(cfg, node, r.db)
  {
    if r.result == Advanced {
      var h, rest :| SyncedOne(cfg, node, db, r.db, h, rest);
      assert ParentKnown(node, h);
      forall g ensures ParentHandled(cfg, node, r.db, g) {
        assert ParentHandled(cfg, node, db, g) && ParentKnown(node, g);
        if g == h && node.headers[h].number > 0 {
          assert r.db.tips[|rest|] == node.headers[h].parentHash;
        }
      }
    } else if r.result == Idle {
      forall g ensures ParentHandled(cfg, node, r.db, g) {
        assert ParentHandled(cfg, node, db, g) && ParentKnown(node, g);
        if g in db.synced && node.headers[g].parentHash in db.tips {
          assert node.headers[g].parentHash in StartTips(node, db);
        }
      }
    }
  }

  lemma {:induction false} RoundKeepsWalkInv(cfg: Config, node: Node, client: Client, db: Db, limit: nat)
    requires WalkInv(cfg, node, db)
    ensures WalkInv(cfg, node, AfterSyncBlocks(cfg, node, client, db, limit).db)
    decreases limit
  {
    if limit > 0 {
      OneBlockOutcome(cfg, node, client, db);
      var r := AfterSyncOneBlock(cfg, node, client, db);
      OutcomeKeepsWalkInv(cfg, node, db, r);
      if r.result == Idle {
        RoundKeepsWalkInv(cfg, node, client, r.db, limit - 1);
      }
    }
  }

  lemma GrowthKeepsWalkInv(cfg: Config, node: Node, node': Node, db: Db)
    requires WalkInv(cfg, node, db) && ValidNode(node') && Grows(node, node')
    ensures WalkInv(cfg, node', db)
  {
    forall g ensures ParentHandled(cfg, node', db, g) {
      assert ParentHandled(cfg, node, db, g);
    }
  }

  /**
    The mapping write and the tips write of a round are two separate writes. If only the first one
    happens, the gap invariant survives exactly when the parent needs no visit any more.
   */
  lemma TornRound(cfg: Config, node: Node, client: Client, db: Db, h: Hash)
    requires WalkInv(cfg, node, db)
    requires h in node.headers && h !in db.synced && node.headers[h].number > 0
    requires AfterSyncBlock(cfg, client, db, h, node.headers[h]).Some?
    ensures var torn := AfterSyncBlock(cfg, client, db, h, node.headers[h]).value;
            NoGap(cfg, node, torn)
            <==> node.headers[h].number <= cfg.syncFrom
                 || node.headers[h].parentHash in db.synced || node.headers[h].parentHash in db.tips
  {
    SyncedAfterBlock(cfg, client, db, h, node.headers[h]);
    var torn := AfterSyncBlock(cfg, client, db, h, node.headers[h]).value;
    var parent := node.headers[h].parentHash;
    assert ParentKnown(node, h);
    if NoGap(cfg, node, torn) {
      assert ParentHandled(cfg, node, torn, h);
    }
    forall g | g != h ensures ParentHandled(cfg, node, torn, g) {
      assert ParentHandled(cfg, node, db, g);
    }
  }

  // ----- Completeness

  /** All blocks from `syncFrom` on, of every fork. */
  ghost predicate AllSynced(cfg: Config, node: Node, db: Db) {
    forall h | h in node.headers && node.headers[h].number >= cfg.syncFrom :: h in db.synced
  }

  lemma {:induction false} AncestorsSynced(cfg: Config, node: Node, db: Db, l: Hash, n: nat)
    requires WalkInv(cfg, node, db) && db.tips == []
    requires l in db.synced && cfg.syncFrom <= n <= node.headers[l].number
    ensures AncestorAt(node, l, n) in db.synced
    decreases node.headers[l].number
  {
    if n < node.headers[l].number {
      assert ParentKnown(node, l) && ParentHandled(cfg, node, db, l);
      AncestorsSynced(cfg, node, db, node.headers[l].parentHash, n);
    }
  }

  /** In any state: everything is synced exactly if all leaves and all stored tips can be dropped. */
  lemma AllSyncedIff(cfg: Config, node: Node, db: Db)
    requires WalkInv(cfg, node, db) && Covered(node)
    ensures AllSynced(cfg, node, db)
       <==> forall t | t in node.leaves || t in db.tips :: Dropped(cfg, node, db, t)
  {
    if forall t | t in node.leaves || t in db.tips :: Dropped(cfg, node, db, t) {
      var without := db.(tips := []);
      forall h ensures ParentHandled(cfg, node, without, h) {
        assert ParentHandled(cfg, node, db, h) && ParentKnown(node, h);
      }
      forall h | h in node.headers && node.headers[h].number >= cfg.syncFrom ensures h in db.synced {
        assert HasLeafAbove(node, h);
        var l :| LeafAbove(node, h, l);
        assert Dropped(cfg, node, db, l);
        AncestorsSynced(cfg, node, without, l, node.headers[h].number);
      }
    }
  }

  /** A fruitless try that started without stored tips has seen that everything is synced. */
  lemma FruitlessFromLeaves(cfg: Config, node: Node, db: Db, r: Round)
    requires WalkInv(cfg, node, db) && Covered(node) && db.tips == []
    requires Outcome(cfg, node, db, r) && r.result == Idle
    ensures AllSynced(cfg, node, db)
  {
    AllSyncedIff(cfg, node, db);
  }

  /** With at least two tries, a round that syncs nothing means that nothing is left to sync. */
  lemma Completeness(cfg: Config, node: Node, client: Client, db: Db, limit: nat)
    requires WalkInv(cfg, node, db) && Covered(node) && limit >= 2
    requires AfterSyncBlocks(cfg, node, client, db, limit).result == Idle
    ensures AllSynced(cfg, node, db)
    ensures AfterSyncBlocks(cfg, node, client, db, limit).db == db.(tips := [])
  {
    var r := AfterSyncOneBlock(cfg, node, client, db);
    OneBlockOutcome(cfg, node, client, db);
    OutcomeKeepsWalkInv(cfg, node, db, r);
    SecondTry(cfg, node, client, r.db, limit - 1);
  }

  lemma {:induction false} SecondTry(cfg: Config, node: Node, client: Client, db: Db, limit: nat)
    requires WalkInv(cfg, node, db) && Covered(node) && db.tips == [] && limit >= 1
    requires AfterSyncBlocks(cfg, node, client, db, limit).result == Idle
    ensures AllSynced(cfg, node, db)
    ensures AfterSyncBlocks(cfg, node, client, db, limit).db == db
    decreases limit
  {
    var r := AfterSyncOneBlock(cfg, node, client, db);
    OneBlockOutcome(cfg, node, client, db);
    FruitlessFromLeaves(cfg, node, db, r);
    if limit > 1 {
      SecondTry(cfg, node, client, db, limit - 1);
    }
  }

  /** With a single try, a round that syncs nothing is right exactly if no leaf needs a visit. */
  lemma SingleTryRight(cfg: Config, node: Node, client: Client, db: Db)
    requires WalkInv(cfg, node, db) && Covered(node)
    requires AfterSyncBlocks(cfg, node, client, db, 1).result == Idle
    ensures AllSynced(cfg, node, db) <==> forall l | l in node.leaves :: Dropped(cfg, node, db, l)
  {
    OneBlockOutcome(cfg, node, client, db);
    AllSyncedIff(cfg, node, db);
    assert forall t | t in db.tips :: t in StartTips(node, db);
  }

  /** So it is right whenever no tips are stored: then the try has seen the leaves. */
  lemma SingleTry(cfg: Config, node: Node, client: Client, db: Db)
    requires WalkInv(cfg, node, db) && Covered(node) && db.tips == []
    requires AfterSyncBlocks(cfg, node, client, db, 1).result == Idle
    ensures AllSynced(cfg, node, db)
  {
    OneBlockOutcome(cfg, node, client, db);
    SingleTryRight(cfg, node, client, db);
  }

  // ----- Progress

  /** Nothing goes wrong: the client reads the same headers, the runtime answers, digests are sound. */
  ghost predicate NoErrors(cfg: Config, node: Node, client: Client) {
    && Faithful(node, client)
    && client.runtimeAnswers
    && (forall h | h in node.headers :: DigestBlock(cfg, node.headers[h]) != Err(MultipleLogs))
  }

  /** The client reads every header that the backend has. */
  ghost predicate Faithful(node: Node, client: Client) {
    forall h | h in node.headers :: h in client.headers && client.headers[h] == node.headers[h]
  }

  ghost function Unsynced(cfg: Config, node: Node, db: Db): set<Hash> {
    set h | h in node.headers && node.headers[h].number >= cfg.syncFrom && h !in db.synced
  }

  lemma OneBlockSucceeds(cfg: Config, node: Node, client: Client, db: Db)
    requires WalkInv(cfg, node, db) && NoErrors(cfg, node, client)
    ensures AfterSyncOneBlock(cfg, node, client, db).result != Stopped
  {
    var tips := StartTips(node, db);
    PopTipsMeaning(cfg, node, db, tips);
  }

  /** One block that had to be synced is synced now; nothing else has changed for the others. */
  ghost predicate OneLess(cfg: Config, node: Node, db: Db, db': Db) {
    && (exists h :: h in Unsynced(cfg, node, db) && db'.synced == db.synced + {h})
    && |Unsynced(cfg, node, db')| == |Unsynced(cfg, node, db)| - 1
  }

  lemma OutcomeProgress(cfg: Config, node: Node, db: Db, r: Round)
    requires Outcome(cfg, node, db, r) && r.result == Advanced
    ensures OneLess(cfg, node, db, r.db)
  {
    var h, rest :| SyncedOne(cfg, node, db, r.db, h, rest);
    assert h in Unsynced(cfg, node, db);
    assert Unsynced(cfg, node, r.db) == Unsynced(cfg, node, db) - {h};
  }

  /** Each successful round syncs exactly one block, which was not synced before. */
  lemma {:induction false} RoundProgress(cfg: Config, node: Node, client: Client, db: Db, limit: nat)
    requires WalkInv(cfg, node, db)
    ensures var r := AfterSyncBlocks(cfg, node, client, db, limit);
            r.result == Advanced ==> OneLess(cfg, node, db, r.db)
    ensures NoErrors(cfg, node, client) ==> AfterSyncBlocks(cfg, node, client, db, limit).result != Stopped
    decreases limit
  {
    if limit > 0 {
      OneBlockOutcome(cfg, node, client, db);
      var r := AfterSyncOneBlock(cfg, node, client, db);
      OutcomeKeepsWalkInv(cfg, node, db, r);
      if NoErrors(cfg, node, client) {
        OneBlockSucceeds(cfg, node, client, db);
      }
      if r.result == Idle {
        RoundProgress(cfg, node, client, r.db, limit - 1);
        assert Unsynced(cfg, node, r.db) == Unsynced(cfg, node, db);
      } else if r.result == Advanced {
        OutcomeProgress(cfg, node, db, r);
      }
    }
  }

  /** Rounds until one does not sync a block: how many did, and the database after them. */
  ghost function Drive(cfg: Config, node: Node, client: Client, db: Db, limit: nat): (r: (nat, Round))
    requires WalkInv(cfg, node, db)
    decreases |Unsynced(cfg, node, db)|
  {
    RoundKeepsWalkInv(cfg, node, client, db, limit);
    RoundProgress(cfg, node, client, db, limit);
    var r := AfterSyncBlocks(cfg, node, client, db, limit);
    if r.result == Advanced then
      var more := Drive(cfg, node, client, r.db, limit);
      (more.0 + 1, more.1)
    else
      (0, r)
  }

  /**
    On a fixed tree, if nothing goes wrong, the successful rounds are exactly as many as there are blocks
    to sync; the round after them syncs nothing, and then every block of every fork is synced.
   */
  lemma {:induction false} DriveSyncsAll(cfg: Config, node: Node, client: Client, db: Db, limit: nat)
    requires WalkInv(cfg, node, db) && Covered(node) && NoErrors(cfg, node, client) && limit >= 2
    ensures Drive(cfg, node, client, db, limit).0 == |Unsynced(cfg, node, db)|
    ensures Drive(cfg, node, client, db, limit).1.result == Idle
    ensures AllSynced(cfg, node, Drive(cfg, node, client, db, limit).1.db)
    decreases |Unsynced(cfg, node, db)|
  {
    RoundKeepsWalkInv(cfg, node, client, db, limit);
    RoundProgress(cfg, node, client, db, limit);
    var r := AfterSyncBlocks(cfg, node, client, db, limit);
    if r.result == Advanced {
      DriveSyncsAll(cfg, node, client, r.db, limit);
    } else {
      Completeness(cfg, node, client, db, limit);
      assert Unsynced(cfg, node, db) == {};
    }
  }
}
