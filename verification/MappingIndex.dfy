/**
  The index from Starknet hashes to Substrate blocks: it agrees with the chain in every run of imports,
  reorgs and sync rounds, and lookups through it return canonical blocks.
 */
module MappingIndex {
  import opened Primitives
  import opened TransactionHash
  import opened Blocks
  import opened MappingSync
  import opened MappingSyncRuns

  /** `h` is a block that wraps a Starknet block with hash `key`. */
  ghost predicate Wraps(cfg: Config, node: Node, h: Hash, key: Term) {
    h in node.headers && DigestBlock(cfg, node.headers[h]).Ok?
    && HeaderHash(DigestBlock(cfg, node.headers[h]).value.header) == key
  }

  ghost predicate NoDuplicates<T>(s: seq<T>) {
    forall i, j | 0 <= i < j < |s| :: s[i] != s[j]
  }

  /** The list of a Starknet block hash. */
  ghost predicate ListSound(cfg: Config, node: Node, db: Db, key: Term) {
    key in db.blockMapping ==>
      && db.blockMapping[key] != []
      && NoDuplicates(db.blockMapping[key])
      && forall k | 0 <= k < |db.blockMapping[key]| ::
           db.blockMapping[key][k] in db.synced && Wraps(cfg, node, db.blockMapping[key][k], key)
  }

  ghost predicate Commits(cfg: Config, node: Node, h: Hash, t: Term) {
    h in node.headers && DigestBlock(cfg, node.headers[h]).Ok?
    && t in CommittedHashes(cfg, node.headers[h], DigestBlock(cfg, node.headers[h]).value)
  }

  ghost predicate TransactionSound(cfg: Config, node: Node, db: Db, t: Term) {
    t in db.transactionMapping ==>
      db.transactionMapping[t] in db.synced && Commits(cfg, node, db.transactionMapping[t], t)
  }

  /** A cached list of transaction hashes is the one committed for the last block in the key's list. */
  ghost predicate CacheSound(cfg: Config, node: Node, db: Db, key: Term) {
    key in db.transactionHashesCache ==>
      && key in db.blockMapping && db.blockMapping[key] != []
      && var h := db.blockMapping[key][|db.blockMapping[key]| - 1];
         Wraps(cfg, node, h, key)
         && db.transactionHashesCache[key]
            == CommittedHashes(cfg, node.headers[h], DigestBlock(cfg, node.headers[h]).value)
  }

  /** A cached block hash belongs to blocks with that number. */
  ghost predicate NumberSound(cfg: Config, node: Node, db: Db, n: nat) {
    n in db.blockHashesCache ==>
      && db.blockHashesCache[n] in db.blockMapping
      && forall h | Wraps(cfg, node, h, db.blockHashesCache[n]) ::
           DigestBlock(cfg, node.headers[h]).value.header.blockNumber == n
  }

  ghost predicate IndexSound(cfg: Config, node: Node, db: Db) {
    && (forall key {:trigger ListSound(cfg, node, db, key)} :: ListSound(cfg, node, db, key))
    && (forall t {:trigger TransactionSound(cfg, node, db, t)} :: TransactionSound(cfg, node, db, t))
    && (forall key {:trigger CacheSound(cfg, node, db, key)} :: CacheSound(cfg, node, db, key))
    && (forall n {:trigger NumberSound(cfg, node, db, n)} :: NumberSound(cfg, node, db, n))
    && (!cfg.cacheMoreThings ==> db.transactionHashesCache == map[] && db.blockHashesCache == map[])
  }

  /** A synced block that wraps a Starknet block can be found by its hash and by its transactions. */
  ghost predicate Indexed(cfg: Config, node: Node, db: Db, h: Hash) {
    h in db.synced && h in node.headers && DigestBlock(cfg, node.headers[h]).Ok? ==>
      var b := DigestBlock(cfg, node.headers[h]).value;
      && HeaderHash(b.header) in db.blockMapping
      && h in db.blockMapping[HeaderHash(b.header)]
      && forall t | t in CommittedHashes(cfg, node.headers[h], b) :: t in db.transactionMapping
  }

  ghost predicate IndexComplete(cfg: Config, node: Node, db: Db) {
    forall h {:trigger Indexed(cfg, node, db, h)} :: Indexed(cfg, node, db, h)
  }

  // ----- Writes keep the index sound

  lemma SoundIgnoresTips(cfg: Config, node: Node, db: Db, db': Db)
    requires IndexSound(cfg, node, db) && db' == db.(tips := db'.tips)
    ensures IndexSound(cfg, node, db')
  {
    forall key ensures ListSound(cfg, node, db', key) && CacheSound(cfg, node, db', key) {
      assert ListSound(cfg, node, db, key) && CacheSound(cfg, node, db, key);
    }
    forall t ensures TransactionSound(cfg, node, db', t) {
      assert TransactionSound(cfg, node, db, t);
    }
    forall n ensures NumberSound(cfg, node, db', n) {
      assert NumberSound(cfg, node, db, n);
    }
  }

  lemma WithNoneSound(cfg: Config, node: Node, db: Db, h: Hash)
    requires IndexSound(cfg, node, db)
    ensures IndexSound(cfg, node, WithNone(db, h))
  {
    var db' := WithNone(db, h);
    forall key ensures ListSound(cfg, node, db', key) && CacheSound(cfg, node, db', key) {
      assert ListSound(cfg, node, db, key) && CacheSound(cfg, node, db, key);
    }
    forall t ensures TransactionSound(cfg, node, db', t) {
      assert TransactionSound(cfg, node, db, t);
    }
    forall n ensures NumberSound(cfg, node, db', n) {
      assert NumberSound(cfg, node, db, n);
    }
  }

  /** A new entry is not in the list yet: entries of lists are synced, and `h` was not. */
  lemma WithHashesList(cfg: Config, node: Node, db: Db, h: Hash, b: StarknetBlock, key: Term)
    requires IndexSound(cfg, node, db)
    requires h in node.headers && h !in db.synced && DigestBlock(cfg, node.headers[h]) == Ok(b)
    ensures var db' := WithHashes(cfg, db, CommitmentFor(cfg, h, node.headers[h], b));
            ListSound(cfg, node, db', key)
  {
    assert ListSound(cfg, node, db, key);
    var db' := WithHashes(cfg, db, CommitmentFor(cfg, h, node.headers[h], b));
    if key == HeaderHash(b.header) {
      var old' := if key in db.blockMapping then db.blockMapping[key] else [];
      assert db'.blockMapping[key] == old' + [h];
      assert h !in old';
    }
  }

  lemma WithHashesTransaction(cfg: Config, node: Node, db: Db, h: Hash, b: StarknetBlock, t: Term)
    requires IndexSound(cfg, node, db)
    requires h in node.headers && DigestBlock(cfg, node.headers[h]) == Ok(b)
    ensures var db' := WithHashes(cfg, db, CommitmentFor(cfg, h, node.headers[h], b));
            TransactionSound(cfg, node, db', t)
  {
    assert TransactionSound(cfg, node, db, t);
  }

  lemma WithHashesCaches(cfg: Config, node: Node, db: Db, h: Hash, b: StarknetBlock, key: Term, n: nat)
    requires IndexSound(cfg, node, db)
    requires h in node.headers && DigestBlock(cfg, node.headers[h]) == Ok(b)
    ensures var db' := WithHashes(cfg, db, CommitmentFor(cfg, h, node.headers[h], b));
            CacheSound(cfg, node, db', key) && NumberSound(cfg, node, db', n)
  {
    assert CacheSound(cfg, node, db, key) && NumberSound(cfg, node, db, n);
    var db' := WithHashes(cfg, db, CommitmentFor(cfg, h, node.headers[h], b));
    if n == b.header.blockNumber && cfg.cacheMoreThings {
      forall g | Wraps(cfg, node, g, HeaderHash(b.header))
        ensures DigestBlock(cfg, node.headers[g]).value.header.blockNumber == n
      {
        HeaderHashBinding(DigestBlock(cfg, node.headers[g]).value.header, b.header);
      }
    }
  }

  lemma WithHashesSound(cfg: Config, node: Node, db: Db, h: Hash, b: StarknetBlock)
    requires IndexSound(cfg, node, db)
    requires h in node.headers && h !in db.synced && DigestBlock(cfg, node.headers[h]) == Ok(b)
    ensures IndexSound(cfg, node, WithHashes(cfg, db, CommitmentFor(cfg, h, node.headers[h], b)))
  {
    var db' := WithHashes(cfg, db, CommitmentFor(cfg, h, node.headers[h], b));
    forall key ensures ListSound(cfg, node, db', key) && CacheSound(cfg, node, db', key) {
      WithHashesList(cfg, node, db, h, b, key);
      WithHashesCaches(cfg, node, db, h, b, key, 0);
    }
    forall t ensures TransactionSound(cfg, node, db', t) {
      WithHashesTransaction(cfg, node, db, h, b, t);
    }
    forall n ensures NumberSound(cfg, node, db', n) {
      WithHashesCaches(cfg, node, db, h, b, Felt(0), n);
    }
  }

  lemma GrowthKeepsSound(cfg: Config, node: Node, node': Node, db: Db)
    requires IndexSound(cfg, node, db) && Grows(node, node')
    ensures IndexSound(cfg, node', db)
  {
    forall key ensures ListSound(cfg, node', db, key) && CacheSound(cfg, node', db, key) {
      assert ListSound(cfg, node, db, key) && CacheSound(cfg, node, db, key);
    }
    forall t ensures TransactionSound(cfg, node', db, t) {
      assert TransactionSound(cfg, node, db, t);
    }
    forall n ensures NumberSound(cfg, node', db, n) {
      assert NumberSound(cfg, node, db, n);
      if n in db.blockHashesCache {
        var key := db.blockHashesCache[n];
        assert ListSound(cfg, node, db, key);
        var witness' := db.blockMapping[key][0];
        assert Wraps(cfg, node, witness', key);
        forall g | Wraps(cfg, node', g, key) ensures DigestBlock(cfg, node'.headers[g]).value.header.blockNumber == n {
          HeaderHashBinding(DigestBlock(cfg, node'.headers[g]).value.header,
                            DigestBlock(cfg, node.headers[witness']).value.header);
        }
      }
    }
  }

  // ----- ... and, if the client reads what the backend has, complete

  lemma WithNoneComplete(cfg: Config, node: Node, db: Db, h: Hash)
    requires IndexComplete(cfg, node, db)
    ensures Indexed(cfg, node, WithNone(db, h), h) ==> IndexComplete(cfg, node, WithNone(db, h))
  {
    if Indexed(cfg, node, WithNone(db, h), h) {
      forall g ensures Indexed(cfg, node, WithNone(db, h), g) {
        assert Indexed(cfg, node, db, g);
      }
    }
  }

  lemma WithHashesComplete(cfg: Config, node: Node, db: Db, h: Hash, b: StarknetBlock)
    requires IndexComplete(cfg, node, db)
    requires h in node.headers && DigestBlock(cfg, node.headers[h]) == Ok(b)
    ensures IndexComplete(cfg, node, WithHashes(cfg, db, CommitmentFor(cfg, h, node.headers[h], b)))
  {
    var db' := WithHashes(cfg, db, CommitmentFor(cfg, h, node.headers[h], b));
    assert db'.blockMapping[HeaderHash(b.header)][|db'.blockMapping[HeaderHash(b.header)]| - 1] == h;
    forall g ensures Indexed(cfg, node, db', g) {
      assert Indexed(cfg, node, db, g);
    }
  }

  lemma CompleteIgnoresTips(cfg: Config, node: Node, db: Db, db': Db)
    requires IndexComplete(cfg, node, db) && db' == db.(tips := db'.tips)
    ensures IndexComplete(cfg, node, db')
  {
    forall g ensures Indexed(cfg, node, db', g) {
      assert Indexed(cfg, node, db, g);
    }
  }

  lemma GrowthKeepsComplete(cfg: Config, node: Node, node': Node, db: Db)
    requires WalkInv(cfg, node, db) && IndexComplete(cfg, node, db) && Grows(node, node')
    ensures IndexComplete(cfg, node', db)
  {
    forall g ensures Indexed(cfg, node', db, g) {
      assert Indexed(cfg, node, db, g);
    }
  }

  /** A block without a digest block, or whose write went through, is indexed; a failed read hides it. */
  lemma SyncedBlockIndexed(cfg: Config, node: Node, client: Client, db: Db, h: Hash)
    requires h in node.headers && h !in db.synced && node.headers[h].number > 0
    requires IndexSound(cfg, node, db)
    requires AfterSyncBlock(cfg, client, db, h, node.headers[h]).Some?
    ensures Indexed(cfg, node, AfterSyncBlock(cfg, client, db, h, node.headers[h]).value, h)
       <==> (DigestBlock(cfg, node.headers[h]).Ok? ==> StoredBlock(cfg, client, h).Some?)
  {
    var header := node.headers[h];
    if DigestBlock(cfg, header).Ok? {
      var b := DigestBlock(cfg, header).value;
      if StoredBlock(cfg, client, h).Some? {
        var db' := WithHashes(cfg, db, CommitmentFor(cfg, h, header, b));
        assert AfterSyncBlock(cfg, client, db, h, header) == Some(db');
        assert db'.blockMapping[HeaderHash(b.header)][|db'.blockMapping[HeaderHash(b.header)]| - 1] == h;
      } else {
        assert AfterSyncBlock(cfg, client, db, h, header) == Some(WithNone(db, h));
        assert ListSound(cfg, node, db, HeaderHash(b.header));
      }
    }
  }

  // ----- One try

  /** The index before and after a try: unchanged, or with one more block written. */
  ghost predicate Written(cfg: Config, node: Node, db: Db, db': Db, h: Hash, faithful: bool) {
    && h in node.headers && h !in db.synced
    && match DigestBlock(cfg, node.headers[h])
       case Ok(b) =>
         var full := WithHashes(cfg, db, CommitmentFor(cfg, h, node.headers[h], b));
         db' == full.(tips := db'.tips) || (!faithful && db' == WithNone(db, h).(tips := db'.tips))
       case Err(_) => db' == WithNone(db, h).(tips := db'.tips)
  }

  lemma BlockWrites(cfg: Config, node: Node, client: Client, db: Db, h: Hash, faithful: bool)
    requires h in node.headers && h !in db.synced && (faithful ==> Faithful(node, client))
    ensures var r := if node.headers[h].number == 0 then AfterSyncGenesisBlock(cfg, db, h, node.headers[h])
                     else AfterSyncBlock(cfg, client, db, h, node.headers[h]);
            r.Some? ==> Written(cfg, node, db, r.value, h, faithful)
  {
  }

  lemma WrittenIgnoresTips(cfg: Config, node: Node, db: Db, db': Db, h: Hash, faithful: bool, tips: seq<Hash>)
    requires Written(cfg, node, db, db', h, faithful)
    ensures Written(cfg, node, db, db'.(tips := tips), h, faithful)
  {
  }

  lemma TryWrites(cfg: Config, node: Node, client: Client, db: Db, faithful: bool) returns (h: Hash)
    requires WalkInv(cfg, node, db) && (faithful ==> Faithful(node, client))
    ensures var r := AfterSyncOneBlock(cfg, node, client, db);
            if r.result == Advanced then Written(cfg, node, db, r.db, h, faithful) else r.db == db.(tips := r.db.tips)
  {
    var tips := StartTips(node, db);
    PopTipsMeaning(cfg, node, db, tips);
    var p := PopTips(cfg, node, db, tips);
    var r := AfterSyncOneBlock(cfg, node, client, db);
    h := 0;
    if tips != [] && p.Operating? {
      h := p.hash;
      BlockWrites(cfg, node, client, db, h, faithful);
      if r.result == Advanced {
        var written := if p.header.number == 0 then AfterSyncGenesisBlock(cfg, db, h, p.header).value
                       else AfterSyncBlock(cfg, client, db, h, p.header).value;
        WrittenIgnoresTips(cfg, node, db, written, h, faithful, r.db.tips);
      }
    }
  }

  lemma WrittenKeepsSound(cfg: Config, node: Node, db: Db, db': Db, h: Hash, faithful: bool)
    requires IndexSound(cfg, node, db) && Written(cfg, node, db, db', h, faithful)
    ensures IndexSound(cfg, node, db')
  {
    WithNoneSound(cfg, node, db, h);
    if DigestBlock(cfg, node.headers[h]).Ok? {
      var b := DigestBlock(cfg, node.headers[h]).value;
      var full := WithHashes(cfg, db, CommitmentFor(cfg, h, node.headers[h], b));
      WithHashesSound(cfg, node, db, h, b);
      if db' == full.(tips := db'.tips) {
        SoundIgnoresTips(cfg, node, full, db');
      } else {
        SoundIgnoresTips(cfg, node, WithNone(db, h), db');
      }
    } else {
      SoundIgnoresTips(cfg, node, WithNone(db, h), db');
    }
  }

  lemma WrittenKeepsComplete(cfg: Config, node: Node, db: Db, db': Db, h: Hash)
    requires IndexComplete(cfg, node, db) && Written(cfg, node, db, db', h, true)
    ensures IndexComplete(cfg, node, db')
  {
    if DigestBlock(cfg, node.headers[h]).Ok? {
      var b := DigestBlock(cfg, node.headers[h]).value;
      var full := WithHashes(cfg, db, CommitmentFor(cfg, h, node.headers[h], b));
      WithHashesComplete(cfg, node, db, h, b);
      CompleteIgnoresTips(cfg, node, full, db');
    } else {
      WithNoneComplete(cfg, node, db, h);
      CompleteIgnoresTips(cfg, node, WithNone(db, h), db');
    }
  }

  // ----- Runs

  ghost predicate Inv(cfg: Config, node: Node, db: Db, faithful: bool) {
    && WalkInv(cfg, node, db)
    && IndexSound(cfg, node, db)
    && (faithful ==> IndexComplete(cfg, node, db))
  }

  lemma {:induction false} RoundKeepsInv(cfg: Config, node: Node, client: Client, db: Db, limit: nat, faithful: bool)
    requires Inv(cfg, node, db, faithful) && (faithful ==> Faithful(node, client))
    ensures Inv(cfg, node, AfterSyncBlocks(cfg, node, client, db, limit).db, faithful)
    decreases limit
  {
    if limit > 0 {
      TryKeepsInv(cfg, node, client, db, faithful);
      var r := AfterSyncOneBlock(cfg, node, client, db);
      if r.result == Idle {
        RoundKeepsInv(cfg, node, client, r.db, limit - 1, faithful);
      }
    }
  }

  lemma TryKeepsInv(cfg: Config, node: Node, client: Client, db: Db, faithful: bool)
    requires Inv(cfg, node, db, faithful) && (faithful ==> Faithful(node, client))
    ensures Inv(cfg, node, AfterSyncOneBlock(cfg, node, client, db).db, faithful)
  {
    var r := AfterSyncOneBlock(cfg, node, client, db);
    OneBlockOutcome(cfg, node, client, db);
    OutcomeKeepsWalkInv(cfg, node, db, r);
    var h := TryWrites(cfg, node, client, db, faithful);
    ResultKeepsIndex(cfg, node, db, r, h, faithful);
  }

  lemma ResultKeepsIndex(cfg: Config, node: Node, db: Db, r: Round, h: Hash, faithful: bool)
    requires Inv(cfg, node, db, faithful)
    requires if r.result == Advanced then Written(cfg, node, db, r.db, h, faithful) else r.db == db.(tips := r.db.tips)
    ensures IndexSound(cfg, node, r.db)
    ensures faithful ==> IndexComplete(cfg, node, r.db)
  {
    if r.result == Advanced {
      WrittenKeepsSound(cfg, node, db, r.db, h, faithful);
      if faithful {
        WrittenKeepsComplete(cfg, node, db, r.db, h);
      }
    } else {
      SoundIgnoresTips(cfg, node, db, r.db);
      if faithful {
        CompleteIgnoresTips(cfg, node, db, r.db);
      }
    }
  }

  datatype System = System(node: Node, db: Db)

  /** New blocks arrive, or the chain is reorganised. */
  ghost predicate Import(s: System, s': System) {
    ValidNode(s'.node) && Grows(s.node, s'.node) && s'.db == s.db
  }

  /** A sync round, with any client and any number of tries. A faithful client reads what the backend has. */
  ghost predicate SyncRound(cfg: Config, s: System, s': System, faithful: bool) {
    s'.node == s.node
    && exists client, limit ::
         (faithful ==> Faithful(s.node, client)) && s'.db == AfterSyncBlocks(cfg, s.node, client, s.db, limit).db
  }

  ghost predicate IsRun(cfg: Config, run: seq<System>, faithful: bool) {
    && run != []
    && ValidNode(run[0].node) && run[0].db == EMPTY_DB
    && forall k | 0 < k < |run| :: Import(run[k - 1], run[k]) || SyncRound(cfg, run[k - 1], run[k], faithful)
  }

  /** No gap, a sound index and (with a faithful client) a complete index, in every state of every run. */
  lemma {:induction false} RunInvariant(cfg: Config, run: seq<System>, faithful: bool, k: nat)
    requires IsRun(cfg, run, faithful) && k < |run|
    ensures Inv(cfg, run[k].node, run[k].db, faithful)
    decreases k
  {
    if k > 0 {
      RunInvariant(cfg, run, faithful, k - 1);
      var s, s' := run[k - 1], run[k];
      if Import(s, s') {
        GrowthKeepsWalkInv(cfg, s.node, s'.node, s.db);
        GrowthKeepsSound(cfg, s.node, s'.node, s.db);
        if faithful {
          GrowthKeepsComplete(cfg, s.node, s'.node, s.db);
        }
      } else {
        var client, limit :|
          (faithful ==> Faithful(s.node, client)) && s'.db == AfterSyncBlocks(cfg, s.node, client, s.db, limit).db;
        RoundKeepsInv(cfg, s.node, client, s.db, limit, faithful);
      }
    }
  }

  // ----- Looking up a Starknet block hash

  predicate IsCanon(node: Node, h: Hash) {
    h in node.headers && node.headers[h].number in node.canonical && node.canonical[node.headers[h].number] == h
  }

  function FirstCanon(node: Node, hashes: seq<Hash>): Option<Hash> {
    if hashes == [] then None
    else if IsCanon(node, hashes[0]) then Some(hashes[0])
    else FirstCanon(node, hashes[1..])
  }

  function LoadHash(node: Node, db: Db, key: Term): Option<Hash> {
    if key in db.blockMapping then FirstCanon(node, db.blockMapping[key]) else None
  }

  lemma {:induction false} FirstCanonMeaning(node: Node, hashes: seq<Hash>)
    ensures match FirstCanon(node, hashes)
            case Some(h) => h in hashes && IsCanon(node, h)
            case None => forall h | h in hashes :: !IsCanon(node, h)
  {
    if hashes != [] && !IsCanon(node, hashes[0]) {
      FirstCanonMeaning(node, hashes[1..]);
    }
  }

  /** Only canonical synced blocks that wrap the asked Starknet block are returned. */
  lemma LoadHashSound(cfg: Config, node: Node, db: Db, faithful: bool, key: Term)
    requires Inv(cfg, node, db, faithful)
    ensures var r := LoadHash(node, db, key);
            r.Some? ==> IsCanon(node, r.value) && r.value in db.synced && Wraps(cfg, node, r.value, key)
  {
    assert ListSound(cfg, node, db, key);
    if key in db.blockMapping {
      FirstCanonMeaning(node, db.blockMapping[key]);
    }
  }

  /** A block is in the list of a Starknet block hash. */
  ghost predicate Listed(db: Db, key: Term, h: Hash) {
    key in db.blockMapping && h in db.blockMapping[key]
  }

  /**
    A block is returned exactly if a canonical synced block wraps the asked one and is in its list. With a
    faithful client, being synced is enough.
   */
  lemma LoadHashFinds(cfg: Config, node: Node, db: Db, faithful: bool, key: Term)
    requires Inv(cfg, node, db, faithful)
    ensures LoadHash(node, db, key).Some?
       <==> exists h :: IsCanon(node, h) && h in db.synced && Wraps(cfg, node, h, key) && Listed(db, key, h)
    ensures faithful ==>
              forall h | h in db.synced && Wraps(cfg, node, h, key) :: Listed(db, key, h)
  {
    LoadHashSound(cfg, node, db, faithful, key);
    assert ListSound(cfg, node, db, key);
    if key in db.blockMapping {
      FirstCanonMeaning(node, db.blockMapping[key]);
    }
    if faithful {
      forall h | h in db.synced && Wraps(cfg, node, h, key) ensures Listed(db, key, h) {
        assert Indexed(cfg, node, db, h);
      }
    }
  }

  /** If no two canonical blocks wrap blocks with the same hash, it is that very block, exactly if it is in the list. */
  lemma LoadHashFindsTheBlock(cfg: Config, node: Node, db: Db, faithful: bool, key: Term, h: Hash)
    requires Inv(cfg, node, db, faithful)
    requires forall g | IsCanon(node, g) && Wraps(cfg, node, g, key) :: g == h
    requires IsCanon(node, h) && h in db.synced && Wraps(cfg, node, h, key)
    ensures LoadHash(node, db, key) == if Listed(db, key, h) then Some(h) else None
    ensures faithful ==> LoadHash(node, db, key) == Some(h)
  {
    LoadHashFinds(cfg, node, db, faithful, key);
    LoadHashSound(cfg, node, db, faithful, key);
  }

  /**
    That is so whenever the wrapped blocks have the numbers of their wrappers, since the number is part of
    the hash. Then a synced canonical block is what its own Starknet hash leads to, if it is in the list.
   */
  lemma LoadHashInLockstep(cfg: Config, node: Node, db: Db, faithful: bool, h: Hash)
    requires Inv(cfg, node, db, faithful)
    requires forall g | IsCanon(node, g) && DigestBlock(cfg, node.headers[g]).Ok? ::
               DigestBlock(cfg, node.headers[g]).value.header.blockNumber == node.headers[g].number
    requires IsCanon(node, h) && h in db.synced && DigestBlock(cfg, node.headers[h]).Ok?
    ensures var key := HeaderHash(DigestBlock(cfg, node.headers[h]).value.header);
            && LoadHash(node, db, key) == (if Listed(db, key, h) then Some(h) else None)
            && (faithful ==> LoadHash(node, db, key) == Some(h))
  {
    var key := HeaderHash(DigestBlock(cfg, node.headers[h]).value.header);
    forall g | IsCanon(node, g) && Wraps(cfg, node, g, key) ensures g == h {
      HeaderHashBinding(DigestBlock(cfg, node.headers[g]).value.header, DigestBlock(cfg, node.headers[h]).value.header);
    }
    LoadHashFindsTheBlock(cfg, node, db, faithful, key, h);
  }
}
