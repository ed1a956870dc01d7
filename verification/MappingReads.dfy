/** Which synced blocks can be found again, when the client fails to read some of them. */
module MappingReads {
  import opened Primitives
  import opened TransactionHash
  import opened Blocks
  import opened DigestLog
  import opened MappingSync
  import opened MappingSyncRuns
  import opened MappingIndex

  /** What happens between two states, with the client of a round. */
  datatype Act = Imported | Synced(client: Client, limit: nat)

  ghost predicate Does(cfg: Config, s: System, act: Act, s': System) {
    match act
    case Imported => Import(s, s')
    case Synced(client, limit) =>
      s'.node == s.node && s'.db == AfterSyncBlocks(cfg, s.node, client, s.db, limit).db
  }

  ghost predicate IsClientRun(cfg: Config, run: seq<System>, acts: seq<Act>) {
    && run != [] && |acts| == |run| - 1
    && ValidNode(run[0].node) && run[0].db == EMPTY_DB
    && forall k | 0 < k < |run| :: Does(cfg, run[k - 1], acts[k - 1], run[k])
  }

  lemma ClientRunIsRun(cfg: Config, run: seq<System>, acts: seq<Act>)
    requires IsClientRun(cfg, run, acts)
    ensures IsRun(cfg, run, false)
  {
    forall k | 0 < k < |run| ensures Import(run[k - 1], run[k]) || SyncRound(cfg, run[k - 1], run[k], false) {
      assert Does(cfg, run[k - 1], acts[k - 1], run[k]);
      if acts[k - 1].Synced? {
        var act := acts[k - 1];
        assert run[k].db == AfterSyncBlocks(cfg, run[k - 1].node, act.client, run[k - 1].db, act.limit).db;
      }
    }
  }

  /** The genesis needs no read. */
  ghost predicate ReadBy(cfg: Config, node: Node, client: Client, h: Hash) {
    (h in node.headers && node.headers[h].number == 0) || StoredBlock(cfg, client, h).Some?
  }

  /** The blocks that were read in the round that synced them. */
  ghost function ReadBlocks(cfg: Config, run: seq<System>, acts: seq<Act>, k: nat): set<Hash>
    requires k < |run| && |acts| == |run| - 1
  {
    if k == 0 then {}
    else match acts[k - 1]
      case Imported => ReadBlocks(cfg, run, acts, k - 1)
      case Synced(client, _) =>
        ReadBlocks(cfg, run, acts, k - 1)
        + set h | h in run[k].db.synced - run[k - 1].db.synced && ReadBy(cfg, run[k].node, client, h)
  }

  // ----- One round

  /** One more block was written: in full if it wraps a block and was read, else just marked. */
  ghost predicate WrittenBy(cfg: Config, node: Node, client: Client, db: Db, db': Db, h: Hash) {
    && h in node.headers && h !in db.synced
    && match DigestBlock(cfg, node.headers[h])
       case Ok(b) =>
         if ReadBy(cfg, node, client, h)
         then db' == WithHashes(cfg, db, CommitmentFor(cfg, h, node.headers[h], b)).(tips := db'.tips)
         else db' == WithNone(db, h).(tips := db'.tips)
       case Err(_) => db' == WithNone(db, h).(tips := db'.tips)
  }

  lemma BlockWrittenBy(cfg: Config, node: Node, client: Client, db: Db, h: Hash, tips: seq<Hash>)
    requires h in node.headers && h !in db.synced
    ensures var r := if node.headers[h].number == 0 then AfterSyncGenesisBlock(cfg, db, h, node.headers[h])
                     else AfterSyncBlock(cfg, client, db, h, node.headers[h]);
            r.Some? ==> WrittenBy(cfg, node, client, db, r.value.(tips := tips), h)
  {
  }

  lemma TryWrittenBy(cfg: Config, node: Node, client: Client, db: Db) returns (h: Hash)
    requires WalkInv(cfg, node, db)
    ensures var r := AfterSyncOneBlock(cfg, node, client, db);
            if r.result == Advanced then WrittenBy(cfg, node, client, db, r.db, h) else r.db == db.(tips := r.db.tips)
  {
    var tips := StartTips(node, db);
    PopTipsMeaning(cfg, node, db, tips);
    var p := PopTips(cfg, node, db, tips);
    h := 0;
    if tips != [] && p.Operating? {
      h := p.hash;
      BlockWrittenBy(cfg, node, client, db, h, AfterSyncOneBlock(cfg, node, client, db).db.tips);
    }
  }

  /** What matters of a write: which list the block is in now. */
  ghost predicate Marks(cfg: Config, node: Node, client: Client, db: Db, db': Db, h: Hash) {
    && h in node.headers && h !in db.synced && db'.synced == db.synced + {h}
    && (forall key, g | g != h :: Listed(db', key, g) <==> Listed(db, key, g))
    && forall key | Wraps(cfg, node, h, key) ::
         Listed(db', key, h) <==> Listed(db, key, h) || ReadBy(cfg, node, client, h)
  }

  lemma WrittenMarks(cfg: Config, node: Node, client: Client, db: Db, db': Db, h: Hash)
    requires WrittenBy(cfg, node, client, db, db', h)
    ensures Marks(cfg, node, client, db, db', h)
  {
  }

  lemma {:induction false} RoundMarks(cfg: Config, node: Node, client: Client, db: Db, limit: nat) returns (h: Hash)
    requires WalkInv(cfg, node, db)
    ensures var db' := AfterSyncBlocks(cfg, node, client, db, limit).db;
            db' == db.(tips := db'.tips) || Marks(cfg, node, client, db, db', h)
    decreases limit
  {
    h := 0;
    if limit > 0 {
      h := TryWrittenBy(cfg, node, client, db);
      var r := AfterSyncOneBlock(cfg, node, client, db);
      OneBlockOutcome(cfg, node, client, db);
      OutcomeKeepsWalkInv(cfg, node, db, r);
      if r.result == Advanced {
        WrittenMarks(cfg, node, client, db, r.db, h);
      } else if r.result == Idle {
        h := RoundMarks(cfg, node, client, r.db, limit - 1);
        var db' := AfterSyncBlocks(cfg, node, client, r.db, limit - 1).db;
        if Marks(cfg, node, client, r.db, db', h) {
          MarksFromTips(cfg, node, client, db, r.db, db', h);
        }
      }
    }
  }

  lemma MarksFromTips(cfg: Config, node: Node, client: Client, db: Db, mid: Db, db': Db, h: Hash)
    requires mid == db.(tips := mid.tips) && Marks(cfg, node, client, mid, db', h)
    ensures Marks(cfg, node, client, db, db', h)
  {
    forall key, g | g != h ensures Listed(db', key, g) <==> Listed(db, key, g) {
      assert Listed(mid, key, g) <==> Listed(db, key, g);
    }
    forall key | Wraps(cfg, node, h, key)
      ensures Listed(db', key, h) <==> Listed(db, key, h) || ReadBy(cfg, node, client, h)
    {
      assert Listed(mid, key, h) <==> Listed(db, key, h);
    }
  }

  // ----- Runs

  ghost predicate ListedRight(cfg: Config, node: Node, db: Db, read: set<Hash>, key: Term, h: Hash) {
    h in db.synced && Wraps(cfg, node, h, key) ==> (Listed(db, key, h) <==> h in read)
  }

  ghost predicate ReadInv(cfg: Config, node: Node, db: Db, read: set<Hash>) {
    && read <= db.synced
    && forall key, h {:trigger ListedRight(cfg, node, db, read, key, h)} :: ListedRight(cfg, node, db, read, key, h)
  }

  lemma MarksKeepReadInv(cfg: Config, node: Node, client: Client, db: Db, db': Db, h: Hash,
                         read: set<Hash>, read': set<Hash>)
    requires IndexSound(cfg, node, db) && ReadInv(cfg, node, db, read) && Marks(cfg, node, client, db, db', h)
    requires read' == read + (if ReadBy(cfg, node, client, h) then {h} else {})
    ensures ReadInv(cfg, node, db', read')
  {
    forall key, g ensures ListedRight(cfg, node, db', read', key, g) {
      assert ListedRight(cfg, node, db, read, key, g) && ListSound(cfg, node, db, key);
    }
  }

  lemma {:induction false} ListedIffRead(cfg: Config, run: seq<System>, acts: seq<Act>, k: nat)
    requires IsClientRun(cfg, run, acts) && k < |run|
    ensures ReadInv(cfg, run[k].node, run[k].db, ReadBlocks(cfg, run, acts, k))
    decreases k
  {
    if k > 0 {
      ListedIffRead(cfg, run, acts, k - 1);
      ClientRunIsRun(cfg, run, acts);
      RunInvariant(cfg, run, false, k - 1);
      assert Does(cfg, run[k - 1], acts[k - 1], run[k]);
      ActKeepsReadInv(cfg, run, acts, k);
    }
  }

  lemma ActKeepsReadInv(cfg: Config, run: seq<System>, acts: seq<Act>, k: nat)
    requires 0 < k < |run| && |acts| == |run| - 1 && Does(cfg, run[k - 1], acts[k - 1], run[k])
    requires Inv(cfg, run[k - 1].node, run[k - 1].db, false)
    requires ReadInv(cfg, run[k - 1].node, run[k - 1].db, ReadBlocks(cfg, run, acts, k - 1))
    ensures ReadInv(cfg, run[k].node, run[k].db, ReadBlocks(cfg, run, acts, k))
  {
    var s, s', read, read' := run[k - 1], run[k], ReadBlocks(cfg, run, acts, k - 1), ReadBlocks(cfg, run, acts, k);
    match acts[k - 1]
    case Imported =>
      forall key, h ensures ListedRight(cfg, s'.node, s'.db, read', key, h) {
        assert ListedRight(cfg, s.node, s.db, read, key, h);
      }
    case Synced(client, limit) =>
      var h := RoundMarks(cfg, s.node, client, s.db, limit);
      if Marks(cfg, s.node, client, s.db, s'.db, h) {
        assert s'.db.synced - s.db.synced == {h};
        MarksKeepReadInv(cfg, s.node, client, s.db, s'.db, h, read, read');
      } else {
        assert s'.db.synced - s.db.synced == {};
        forall key, g ensures ListedRight(cfg, s'.node, s'.db, read', key, g) {
          assert ListedRight(cfg, s.node, s.db, read, key, g);
          assert Listed(s'.db, key, g) <==> Listed(s.db, key, g);
        }
      }
  }

  /**
    In every state of every run, whatever the clients answer: a Starknet hash leads to a block exactly if a
    canonical synced block that wraps it was read in the round that synced it.
   */
  lemma LoadHashFindsRead(cfg: Config, run: seq<System>, acts: seq<Act>, k: nat, key: Term)
    requires IsClientRun(cfg, run, acts) && k < |run|
    ensures var node, db, read := run[k].node, run[k].db, ReadBlocks(cfg, run, acts, k);
            LoadHash(node, db, key).Some?
            <==> exists h :: IsCanon(node, h) && h in db.synced && Wraps(cfg, node, h, key) && h in read
  {
    var node, db, read := run[k].node, run[k].db, ReadBlocks(cfg, run, acts, k);
    ClientRunIsRun(cfg, run, acts);
    RunInvariant(cfg, run, false, k);
    ListedIffRead(cfg, run, acts, k);
    LoadHashFinds(cfg, node, db, false, key);
    forall h ensures h in db.synced && Wraps(cfg, node, h, key) ==> (Listed(db, key, h) <==> h in read) {
      assert ListedRight(cfg, node, db, read, key, h);
    }
  }

  // ----- A block that was not read

  /** Block 1, with the digest `d`, on top of an empty genesis. */
  function TwoBlocks(d: Digest): Node {
    Node(map[0 := SubstrateHeader(0, 0, []), 1 := SubstrateHeader(1, 0, d)], [1], map[0 := 0, 1 := 1])
  }

  /** A run of one round with a client that reads nothing: the canonical synced block 1 is not found. */
  lemma UnreadBlockNotFound(cfg: Config, d: Digest) returns (run: seq<System>, acts: seq<Act>)
    requires cfg.syncFrom == 0 && FindStarknetBlock(cfg.codec, d).Ok?
    ensures IsClientRun(cfg, run, acts)
    ensures var s := run[|run| - 1];
            var key := HeaderHash(FindStarknetBlock(cfg.codec, d).value.header);
            && IsCanon(s.node, 1) && 1 in s.db.synced && Wraps(cfg, s.node, 1, key)
            && LoadHash(s.node, s.db, key) == None
  {
    var node, client := TwoBlocks(d), Client(map[], false);
    assert ValidNode(node) by {
      forall h ensures ParentKnown(node, h) {}
    }
    var db := WithNone(EMPTY_DB, 1).(tips := [0]);
    assert [1][..0] == [] && [] + [0] == [0];
    assert PopTips(cfg, node, EMPTY_DB, [1]) == Operating(1, node.headers[1], []);
    assert AfterSyncOneBlock(cfg, node, client, EMPTY_DB) == Round(Advanced, db);
    assert AfterSyncBlocks(cfg, node, client, EMPTY_DB, 1) == Round(Advanced, db);
    run, acts := [System(node, EMPTY_DB), System(node, db)], [Synced(client, 1)];
  }
}
