/** Forks and reorgs: runs on a tree with two branches, and what the transaction index says after a reorg. */
module MappingReorgs {
  import opened Primitives
  import opened TransactionHash
  import opened Blocks
  import opened DigestLog
  import opened MappingSync
  import opened MappingSyncRuns
  import opened MappingIndex

  // ----- The transaction index follows the order of syncing

  /** The blocks in the order in which the rounds of a run have synced them. */
  ghost function SyncOrder(run: seq<System>, k: nat): seq<Hash>
    requires k < |run|
  {
    if k == 0 then []
    else
      var added := run[k].db.synced - run[k - 1].db.synced;
      if added == {} then SyncOrder(run, k - 1)
      else
        var h :| h in added;
        SyncOrder(run, k - 1) + [h]
  }

  /** The last block of a list that commits a transaction. */
  ghost function LastCommitting(cfg: Config, node: Node, order: seq<Hash>, t: Term): Option<Hash> {
    if order == [] then None
    else if Commits(cfg, node, order[|order| - 1], t) then Some(order[|order| - 1])
    else LastCommitting(cfg, node, order[..|order| - 1], t)
  }

  function TransactionBlock(db: Db, t: Term): Option<Hash> {
    if t in db.transactionMapping then Some(db.transactionMapping[t]) else None
  }

  ghost predicate OrderInv(cfg: Config, node: Node, db: Db, order: seq<Hash>) {
    && (forall h :: h in order <==> h in db.synced)
    && forall t :: TransactionBlock(db, t) == LastCommitting(cfg, node, order, t)
  }

  lemma {:induction false} LastCommittingMeaning(cfg: Config, node: Node, order: seq<Hash>, t: Term)
    ensures match LastCommitting(cfg, node, order, t)
            case Some(h) => h in order && Commits(cfg, node, h, t)
            case None => forall h | h in order :: !Commits(cfg, node, h, t)
  {
    if order != [] {
      LastCommittingMeaning(cfg, node, order[..|order| - 1], t);
      assert order == order[..|order| - 1] + [order[|order| - 1]];
    }
  }

  lemma {:induction false} LastCommittingGrows(cfg: Config, node: Node, node': Node, order: seq<Hash>, t: Term)
    requires Grows(node, node') && forall h | h in order :: h in node.headers
    ensures LastCommitting(cfg, node', order, t) == LastCommitting(cfg, node, order, t)
  {
    if order != [] {
      assert order[|order| - 1] in node.headers;
      LastCommittingGrows(cfg, node, node', order[..|order| - 1], t);
    }
  }

  /** Only the transactions that `h` commits change, and lead to `h` then. */
  lemma WrittenTransaction(cfg: Config, node: Node, db: Db, db': Db, h: Hash, t: Term)
    requires Written(cfg, node, db, db', h, true)
    ensures db'.synced == db.synced + {h}
    ensures TransactionBlock(db', t) == if Commits(cfg, node, h, t) then Some(h) else TransactionBlock(db, t)
  {
  }

  lemma WrittenKeepsOrder(cfg: Config, node: Node, db: Db, db': Db, h: Hash, order: seq<Hash>)
    requires OrderInv(cfg, node, db, order) && Written(cfg, node, db, db', h, true)
    ensures OrderInv(cfg, node, db', order + [h])
    ensures db'.synced == db.synced + {h} && h !in db.synced
  {
    WrittenTransaction(cfg, node, db, db', h, Felt(0));
    forall t ensures TransactionBlock(db', t) == LastCommitting(cfg, node, order + [h], t) {
      WrittenTransaction(cfg, node, db, db', h, t);
      assert (order + [h])[..|order|] == order;
      assert TransactionBlock(db, t) == LastCommitting(cfg, node, order, t);
    }
  }

  /** A round writes at most one block. */
  lemma {:induction false} RoundWrites(cfg: Config, node: Node, client: Client, db: Db, limit: nat, faithful: bool)
    returns (h: Hash)
    requires WalkInv(cfg, node, db) && (faithful ==> Faithful(node, client))
    ensures var db' := AfterSyncBlocks(cfg, node, client, db, limit).db;
            db' == db.(tips := db'.tips) || Written(cfg, node, db, db', h, faithful)
    decreases limit
  {
    h := 0;
    if limit > 0 {
      h := TryWrites(cfg, node, client, db, faithful);
      OneBlockOutcome(cfg, node, client, db);
      var r := AfterSyncOneBlock(cfg, node, client, db);
      OutcomeKeepsWalkInv(cfg, node, db, r);
      if r.result == Idle {
        h := RoundWrites(cfg, node, client, r.db, limit - 1, faithful);
        var db' := AfterSyncBlocks(cfg, node, client, db, limit).db;
        if Written(cfg, node, r.db, db', h, faithful) {
          WrittenFromTips(cfg, node, db, r.db, db', h, faithful);
        }
      }
    }
  }

  lemma WrittenFromTips(cfg: Config, node: Node, db: Db, mid: Db, db': Db, h: Hash, faithful: bool)
    requires mid == db.(tips := mid.tips) && Written(cfg, node, mid, db', h, faithful)
    ensures Written(cfg, node, db, db', h, faithful)
  {
    assert WithNone(mid, h).(tips := db'.tips) == WithNone(db, h).(tips := db'.tips);
    if DigestBlock(cfg, node.headers[h]).Ok? {
      var c := CommitmentFor(cfg, h, node.headers[h], DigestBlock(cfg, node.headers[h]).value);
      WithHashesTips(cfg, db, mid, c, db'.tips);
    }
  }

  lemma WithHashesTips(cfg: Config, db: Db, mid: Db, c: MappingCommitment, tips: seq<Hash>)
    requires mid == db.(tips := mid.tips)
    ensures WithHashes(cfg, mid, c).(tips := tips) == WithHashes(cfg, db, c).(tips := tips)
  {
  }

  lemma SameOrder(cfg: Config, node: Node, db: Db, db': Db, order: seq<Hash>)
    requires OrderInv(cfg, node, db, order) && db' == db.(tips := db'.tips)
    ensures OrderInv(cfg, node, db', order)
  {
    forall t ensures TransactionBlock(db', t) == LastCommitting(cfg, node, order, t) {
      assert TransactionBlock(db, t) == LastCommitting(cfg, node, order, t);
    }
  }

  lemma RoundKeepsOrder(cfg: Config, node: Node, client: Client, db: Db, limit: nat, order: seq<Hash>)
    returns (order': seq<Hash>)
    requires WalkInv(cfg, node, db) && Faithful(node, client) && OrderInv(cfg, node, db, order)
    ensures var db' := AfterSyncBlocks(cfg, node, client, db, limit).db;
            && OrderInv(cfg, node, db', order')
            && (if db'.synced - db.synced == {} then order' == order
                else exists h :: db'.synced - db.synced == {h} && order' == order + [h])
  {
    var h := RoundWrites(cfg, node, client, db, limit, true);
    var db' := AfterSyncBlocks(cfg, node, client, db, limit).db;
    if Written(cfg, node, db, db', h, true) {
      WrittenKeepsOrder(cfg, node, db, db', h, order);
      order' := order + [h];
      assert db'.synced - db.synced == {h};
    } else {
      SameOrder(cfg, node, db, db', order);
      order' := order;
      assert db'.synced - db.synced == {};
    }
  }

  /** In every state of every run, a transaction leads to the block that was synced last of those that commit it. */
  lemma {:induction false} TransactionLookup(cfg: Config, run: seq<System>, k: nat)
    requires IsRun(cfg, run, true) && k < |run|
    ensures OrderInv(cfg, run[k].node, run[k].db, SyncOrder(run, k))
    decreases k
  {
    if k > 0 {
      TransactionLookup(cfg, run, k - 1);
      var s, s', order := run[k - 1], run[k], SyncOrder(run, k - 1);
      RunInvariant(cfg, run, true, k - 1);
      if Import(s, s') {
        assert s'.db.synced - s.db.synced == {};
        forall t ensures TransactionBlock(s'.db, t) == LastCommitting(cfg, s'.node, order, t) {
          LastCommittingGrows(cfg, s.node, s'.node, order, t);
          assert TransactionBlock(s.db, t) == LastCommitting(cfg, s.node, order, t);
        }
      } else {
        var client, limit :|
          Faithful(s.node, client) && s'.db == AfterSyncBlocks(cfg, s.node, client, s.db, limit).db;
        var order' := RoundKeepsOrder(cfg, s.node, client, s.db, limit, order);
        assert order' == SyncOrder(run, k);
      }
    }
  }

  /** With a faithful client, a block is found exactly if a synced one commits the transaction. */
  lemma TransactionFound(cfg: Config, run: seq<System>, k: nat, t: Term)
    requires IsRun(cfg, run, true) && k < |run|
    ensures var node, db := run[k].node, run[k].db;
            var found := TransactionBlock(db, t);
            && (found.Some? <==> exists h :: h in db.synced && Commits(cfg, node, h, t))
            && (found.Some? && (forall h | h in db.synced && Commits(cfg, node, h, t) :: IsCanon(node, h))
                ==> IsCanon(node, found.value))
  {
    TransactionLookup(cfg, run, k);
    assert TransactionBlock(run[k].db, t) == LastCommitting(cfg, run[k].node, SyncOrder(run, k), t);
    LastCommittingMeaning(cfg, run[k].node, SyncOrder(run, k), t);
  }

  // ----- ... and agrees with the lists of the block index

  /** A transaction leads to a block in the list of the Starknet block that it wraps. */
  ghost predicate HasHome(cfg: Config, node: Node, db: Db, t: Term) {
    t in db.transactionMapping ==>
      var h := db.transactionMapping[t];
      && h in node.headers && DigestBlock(cfg, node.headers[h]).Ok?
      && Listed(db, HeaderHash(DigestBlock(cfg, node.headers[h]).value.header), h)
  }

  /** Of the blocks in one list that commit a transaction, it can only lead to the last. */
  ghost predicate LeadsToLast(cfg: Config, node: Node, db: Db, key: Term, t: Term) {
    key in db.blockMapping ==>
      var last := LastCommitting(cfg, node, db.blockMapping[key], t);
      last.Some? ==>
        t in db.transactionMapping
        && (Wraps(cfg, node, db.transactionMapping[t], key) ==> db.transactionMapping[t] == last.value)
  }

  ghost predicate ListsAgree(cfg: Config, node: Node, db: Db) {
    && (forall t {:trigger HasHome(cfg, node, db, t)} :: HasHome(cfg, node, db, t))
    && (forall key, t {:trigger LeadsToLast(cfg, node, db, key, t)} :: LeadsToLast(cfg, node, db, key, t))
  }

  lemma WithHashesHome(cfg: Config, node: Node, db: Db, h: Hash, b: StarknetBlock, t: Term)
    requires h in node.headers && DigestBlock(cfg, node.headers[h]) == Ok(b) && HasHome(cfg, node, db, t)
    ensures HasHome(cfg, node, WithHashes(cfg, db, CommitmentFor(cfg, h, node.headers[h], b)), t)
  {
    var db' := WithHashes(cfg, db, CommitmentFor(cfg, h, node.headers[h], b));
    var key := HeaderHash(b.header);
    assert db'.blockMapping[key][|db'.blockMapping[key]| - 1] == h;
  }

  lemma WithHashesLast(cfg: Config, node: Node, db: Db, h: Hash, b: StarknetBlock, key: Term, t: Term)
    requires h in node.headers && DigestBlock(cfg, node.headers[h]) == Ok(b) && LeadsToLast(cfg, node, db, key, t)
    ensures LeadsToLast(cfg, node, WithHashes(cfg, db, CommitmentFor(cfg, h, node.headers[h], b)), key, t)
  {
    var db' := WithHashes(cfg, db, CommitmentFor(cfg, h, node.headers[h], b));
    if key == HeaderHash(b.header) {
      var before := if key in db.blockMapping then db.blockMapping[key] else [];
      assert db'.blockMapping[key] == before + [h] && (before + [h])[..|before|] == before;
    }
  }

  lemma WithHashesAgree(cfg: Config, node: Node, db: Db, h: Hash, b: StarknetBlock)
    requires ListsAgree(cfg, node, db) && h in node.headers && DigestBlock(cfg, node.headers[h]) == Ok(b)
    ensures ListsAgree(cfg, node, WithHashes(cfg, db, CommitmentFor(cfg, h, node.headers[h], b)))
  {
    var db' := WithHashes(cfg, db, CommitmentFor(cfg, h, node.headers[h], b));
    forall t ensures HasHome(cfg, node, db', t) {
      assert HasHome(cfg, node, db, t);
      WithHashesHome(cfg, node, db, h, b, t);
    }
    forall key, t ensures LeadsToLast(cfg, node, db', key, t) {
      assert LeadsToLast(cfg, node, db, key, t);
      WithHashesLast(cfg, node, db, h, b, key, t);
    }
  }

  /** Only the two columns matter. */
  lemma SameColumnsAgree(cfg: Config, node: Node, db: Db, db': Db)
    requires ListsAgree(cfg, node, db)
    requires db'.blockMapping == db.blockMapping && db'.transactionMapping == db.transactionMapping
    ensures ListsAgree(cfg, node, db')
  {
    forall t ensures HasHome(cfg, node, db', t) {
      assert HasHome(cfg, node, db, t);
    }
    forall key, t ensures LeadsToLast(cfg, node, db', key, t) {
      assert LeadsToLast(cfg, node, db, key, t);
    }
  }

  lemma WrittenAgree(cfg: Config, node: Node, db: Db, db': Db, h: Hash)
    requires ListsAgree(cfg, node, db) && Written(cfg, node, db, db', h, false)
    ensures ListsAgree(cfg, node, db')
  {
    if DigestBlock(cfg, node.headers[h]).Ok? {
      var b := DigestBlock(cfg, node.headers[h]).value;
      var full := WithHashes(cfg, db, CommitmentFor(cfg, h, node.headers[h], b));
      WithHashesAgree(cfg, node, db, h, b);
      SameColumnsAgree(cfg, node, if db' == full.(tips := db'.tips) then full else db, db');
    } else {
      SameColumnsAgree(cfg, node, db, db');
    }
  }

  lemma GrowthAgrees(cfg: Config, node: Node, node': Node, db: Db)
    requires IndexSound(cfg, node, db) && ListsAgree(cfg, node, db) && Grows(node, node')
    ensures ListsAgree(cfg, node', db)
  {
    forall t ensures HasHome(cfg, node', db, t) {
      assert HasHome(cfg, node, db, t);
    }
    forall key, t ensures LeadsToLast(cfg, node', db, key, t) {
      assert LeadsToLast(cfg, node, db, key, t) && ListSound(cfg, node, db, key) && HasHome(cfg, node, db, t);
      if key in db.blockMapping {
        LastCommittingGrows(cfg, node, node', db.blockMapping[key], t);
      }
    }
  }

  /** In every state of every run, whatever the client answers, the two indices agree. */
  lemma {:induction false} RunAgrees(cfg: Config, run: seq<System>, faithful: bool, k: nat)
    requires IsRun(cfg, run, faithful) && k < |run|
    ensures ListsAgree(cfg, run[k].node, run[k].db)
    decreases k
  {
    if k > 0 {
      RunAgrees(cfg, run, faithful, k - 1);
      RunInvariant(cfg, run, faithful, k - 1);
      var s, s' := run[k - 1], run[k];
      if Import(s, s') {
        GrowthAgrees(cfg, s.node, s'.node, s.db);
      } else {
        var client, limit :|
          (faithful ==> Faithful(s.node, client)) && s'.db == AfterSyncBlocks(cfg, s.node, client, s.db, limit).db;
        var h := RoundWrites(cfg, s.node, client, s.db, limit, false);
        if Written(cfg, s.node, s.db, s'.db, h, false) {
          WrittenAgree(cfg, s.node, s.db, s'.db, h);
        } else {
          SameColumnsAgree(cfg, s.node, s.db, s'.db);
        }
      }
    }
  }

  /** Only blocks that wrap the Starknet block with this hash commit the transaction. */
  ghost predicate OnlyIn(cfg: Config, node: Node, db: Db, t: Term, key: Term) {
    forall h | h in db.synced && Commits(cfg, node, h, t) :: Wraps(cfg, node, h, key)
  }

  /**
    If a transaction is in one Starknet block only, it leads to the last block in the list of that one which
    commits it. So the lookup names a canonical block exactly if that list entry is canonical.
   */
  lemma TransactionLookupCanonical(cfg: Config, run: seq<System>, faithful: bool, k: nat, t: Term, key: Term)
    requires IsRun(cfg, run, faithful) && k < |run| && OnlyIn(cfg, run[k].node, run[k].db, t, key)
    ensures var node, db := run[k].node, run[k].db;
            var list := if key in db.blockMapping then db.blockMapping[key] else [];
            var found, last := TransactionBlock(db, t), LastCommitting(cfg, node, list, t);
            && found == last
            && (list != [] && Commits(cfg, node, list[|list| - 1], t) ==>
                  found.Some? && (IsCanon(node, found.value) <==> IsCanon(node, list[|list| - 1])))
  {
    var node, db := run[k].node, run[k].db;
    RunInvariant(cfg, run, faithful, k);
    RunAgrees(cfg, run, faithful, k);
    assert HasHome(cfg, node, db, t) && LeadsToLast(cfg, node, db, key, t) && TransactionSound(cfg, node, db, t);
    if key in db.blockMapping {
      LastCommittingMeaning(cfg, node, db.blockMapping[key], t);
    }
  }

  // ----- A tree with two branches

  /** Block 0 with the children 1 and 2, which have the same digest; 2 is canonical. */
  function Fork(d: Digest): Node {
    Node(map[0 := SubstrateHeader(0, 0, []), 1 := SubstrateHeader(1, 0, d), 2 := SubstrateHeader(1, 0, d)],
         [1, 2],
         map[0 := 0, 1 := 2])
  }

  function WithoutErrors(node: Node): Client {
    Client(node.headers, true)
  }

  /** The database after a visit of `h`, with the tips `rest` left. */
  function Visited(cfg: Config, node: Node, db: Db, h: Hash, rest: seq<Hash>): Db
    requires h in node.headers
  {
    var header := node.headers[h];
    var written := match DigestBlock(cfg, header)
                   case Ok(b) => WithHashes(cfg, db, CommitmentFor(cfg, h, header, b))
                   case Err(_) => WithNone(db, h);
    written.(tips := if header.number == 0 then rest else rest + [header.parentHash])
  }

  lemma VisitRound(cfg: Config, node: Node, db: Db, h: Hash, rest: seq<Hash>)
    requires h in node.headers && h !in db.synced && node.headers[h].number >= cfg.syncFrom
    requires StartTips(node, db) == rest + [h] && DigestBlock(cfg, node.headers[h]) != Err(MultipleLogs)
    ensures AfterSyncBlocks(cfg, node, WithoutErrors(node), db, 1).db == Visited(cfg, node, db, h, rest)
    ensures SyncRound(cfg, System(node, db), System(node, Visited(cfg, node, db, h, rest)), true)
  {
    var tips, client := StartTips(node, db), WithoutErrors(node);
    assert tips[|tips| - 1] == h && tips[..|tips| - 1] == rest;
    assert PopTips(cfg, node, db, tips) == Operating(h, node.headers[h], rest);
    var r := AfterSyncOneBlock(cfg, node, client, db);
    assert r == Round(Advanced, Visited(cfg, node, db, h, rest));
    assert AfterSyncBlocks(cfg, node, client, db, 1) == r;
    assert Faithful(node, client);
  }

  /** What a visit changes, as far as it matters here. */
  lemma VisitedMeaning(cfg: Config, node: Node, db: Db, h: Hash, rest: seq<Hash>, t: Term)
    requires h in node.headers
    ensures var db' := Visited(cfg, node, db, h, rest);
            && db'.synced == db.synced + {h}
            && db'.tips == (if node.headers[h].number == 0 then rest else rest + [node.headers[h].parentHash])
            && (Commits(cfg, node, h, t) ==> TransactionBlock(db', t) == Some(h))
  {
  }

  /** The database after one, two and three rounds. */
  function ForkDb(cfg: Config, d: Digest, rounds: nat): Db {
    if rounds == 0 then EMPTY_DB
    else if rounds == 1 then Visited(cfg, Fork(d), EMPTY_DB, 2, [1])
    else if rounds == 2 then Visited(cfg, Fork(d), Visited(cfg, Fork(d), EMPTY_DB, 2, [1]), 0, [1])
    else Visited(cfg, Fork(d), Visited(cfg, Fork(d), Visited(cfg, Fork(d), EMPTY_DB, 2, [1]), 0, [1]), 1, [])
  }

  lemma ForkIsValid(d: Digest)
    ensures ValidNode(Fork(d))
  {
    forall h ensures ParentKnown(Fork(d), h) {}
  }

  lemma ForkRound(cfg: Config, d: Digest, rounds: nat)
    requires cfg.syncFrom == 0 && FindStarknetBlock(cfg.codec, d) != Err(MultipleLogs) && rounds < 3
    ensures SyncRound(cfg, System(Fork(d), ForkDb(cfg, d, rounds)), System(Fork(d), ForkDb(cfg, d, rounds + 1)), true)
  {
    var node := Fork(d);
    assert FindStarknetBlock(cfg.codec, []) == Err(NotLog);
    var db1 := Visited(cfg, node, EMPTY_DB, 2, [1]);
    VisitedMeaning(cfg, node, EMPTY_DB, 2, [1], Felt(0));
    VisitedMeaning(cfg, node, db1, 0, [1], Felt(0));
    if rounds == 0 {
      assert [1, 2] == [1] + [2];
      VisitRound(cfg, node, EMPTY_DB, 2, [1]);
    } else if rounds == 1 {
      VisitRound(cfg, node, db1, 0, [1]);
    } else {
      assert [1] == [] + [1];
      VisitRound(cfg, node, Visited(cfg, node, db1, 0, [1]), 1, []);
    }
  }

  /** Three rounds sync the blocks 2, 0 and 1, and leave 0 as a stale tip. */
  lemma ForkRun(cfg: Config, d: Digest) returns (run: seq<System>)
    requires cfg.syncFrom == 0 && FindStarknetBlock(cfg.codec, d) != Err(MultipleLogs)
    ensures IsRun(cfg, run, true) && |run| == 4 && run[3] == System(Fork(d), ForkDb(cfg, d, 3))
  {
    ForkIsValid(d);
    run := seq(4, k requires 0 <= k < 4 => System(Fork(d), ForkDb(cfg, d, k)));
    forall k | 0 < k < 4 ensures SyncRound(cfg, run[k - 1], run[k], true) {
      ForkRound(cfg, d, k - 1);
    }
  }

  lemma ForkOutcome(cfg: Config, d: Digest, t: Term)
    ensures var db := ForkDb(cfg, d, 3);
            && db.synced == {0, 1, 2} && db.tips == [0]
            && (Commits(cfg, Fork(d), 1, t) ==> TransactionBlock(db, t) == Some(1))
  {
    var node := Fork(d);
    var db1 := Visited(cfg, node, EMPTY_DB, 2, [1]);
    var db2 := Visited(cfg, node, db1, 0, [1]);
    VisitedMeaning(cfg, node, EMPTY_DB, 2, [1], t);
    VisitedMeaning(cfg, node, db1, 0, [1], t);
    VisitedMeaning(cfg, node, db2, 1, [], t);
    assert ForkDb(cfg, d, 3) == Visited(cfg, node, db2, 1, []);
  }

  // ----- One try is not enough

  /** The fork with one more block on the branch of block 1. */
  function Longer(d: Digest): Node {
    var node := Fork(d);
    Node(node.headers[3 := SubstrateHeader(2, 1, d)], [3, 2], map[0 := 0, 1 := 1, 2 := 3])
  }

  lemma LongerIsValid(d: Digest)
    ensures ValidNode(Longer(d)) && Grows(Fork(d), Longer(d)) && Covered(Longer(d))
  {
    var node := Longer(d);
    forall h ensures ParentKnown(node, h) {}
    assert IsChild(node, 2, 0) && IsChild(node, 3, 1);
    assert HasChild(node, 0) && HasChild(node, 1);
    CompleteLeavesCover(node);
  }

  /**
    A run after which a single try, whatever the client answers, uses up the stale tip, syncs nothing and
    reports that nothing is left, although the new block is not synced.
   */
  lemma SingleTryMissesBlock(cfg: Config, d: Digest) returns (run: seq<System>)
    requires cfg.syncFrom == 0 && FindStarknetBlock(cfg.codec, d) != Err(MultipleLogs)
    ensures IsRun(cfg, run, true)
    ensures var s := run[|run| - 1];
            && ValidNode(s.node) && Covered(s.node) && NoDuplicates(s.node.leaves)
            && (forall client :: AfterSyncBlocks(cfg, s.node, client, s.db, 1).result == Idle)
            && !AllSynced(cfg, s.node, s.db)
  {
    var before := ForkRun(cfg, d);
    ForkOutcome(cfg, d, Felt(0));
    var node, db := Longer(d), before[3].db;
    LongerIsValid(d);
    run := before + [System(node, db)];
    assert Import(run[3], run[4]);
    forall k | 0 < k < |run| ensures Import(run[k - 1], run[k]) || SyncRound(cfg, run[k - 1], run[k], true) {
      if k < 4 {
        assert run[k - 1] == before[k - 1] && run[k] == before[k];
      }
    }
    assert FetchHeader(cfg, node, db, 0) == Skip;
    assert [0][..0] == [] && PopTips(cfg, node, db, []) == Exhausted;
    assert PopTips(cfg, node, db, [0]) == Exhausted;
    forall client ensures AfterSyncBlocks(cfg, node, client, db, 1).result == Idle {
      var r := AfterSyncOneBlock(cfg, node, client, db);
      assert r.result == Idle;
      assert AfterSyncBlocks(cfg, node, client, db, 1) == AfterSyncBlocks(cfg, node, client, r.db, 0);
    }
    assert 3 in node.headers && 3 !in db.synced;
  }

  // ----- A transaction in two branches

  /** A run after which a transaction leads to a non-canonical block, although a canonical synced one commits it. */
  lemma TransactionOffChain(cfg: Config, d: Digest, t: Term) returns (run: seq<System>)
    requires cfg.syncFrom == 0 && FindStarknetBlock(cfg.codec, d).Ok?
    requires t in TransactionHashes(cfg, FindStarknetBlock(cfg.codec, d).value)
    ensures IsRun(cfg, run, true)
    ensures var s := run[|run| - 1];
            && TransactionBlock(s.db, t) == Some(1) && !IsCanon(s.node, 1)
            && IsCanon(s.node, 2) && 2 in s.db.synced && Commits(cfg, s.node, 2, t)
  {
    run := ForkRun(cfg, d);
    ForkOutcome(cfg, d, t);
    assert Commits(cfg, Fork(d), 1, t) && Commits(cfg, Fork(d), 2, t);
  }
}
