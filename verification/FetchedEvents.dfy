/** From the fetched blocks to the pages of an event query. */
module FetchedEvents {
  import opened Primitives
  import opened Bytes
  import opened Arithmetic
  import opened Blocks
  import opened MappingSync
  import opened MappingIndex
  import opened EventPaging
  import EventPagingGrowth
  import opened EventAttribution
  import opened EventHashes

  /** Receipts belong to transactions. */
  ghost predicate AllWellFormed(chain: seq<FetchedBlock>, pending: Option<FetchedBlock>) {
    && (forall n | 0 <= n < |chain| :: |chain[n].receipts| <= |chain[n].transactions|)
    && (pending.Some? ==> |pending.value.receipts| <= |pending.value.transactions|)
  }

  /** What a query sees of a chain of fetched blocks: the answers for its blocks, none of them out of range. */
  ghost predicate IsView(cfg: Config, db: Db, chain: seq<FetchedBlock>, pending: Option<FetchedBlock>,
                         view: ChainView) {
    && chain != []
    && view.latest.Some? && view.latest.value == |chain| - 1
    && (forall n: nat :: n in view.blocks <==> n < |chain|)
    && (forall n: nat | n < |chain| :: ReadBlock(cfg, db, chain[n]) == Some(view.blocks[n]))
    && view.pending == if pending.Some? then ReadPending(cfg, pending.value) else None
  }

  /** The genesis has cached the empty list for a block that has events. */
  ghost predicate Unreadable(cfg: Config, node: Node, db: Db, f: FetchedBlock) {
    CachedByGenesis(cfg, node, db, HeaderHash(Converted(cfg, f).header)) && HasEvents(f.receipts)
  }

  /** The state of the mapping sync and the fetched blocks. */
  ghost predicate Setting(cfg: Config, node: Node, db: Db, chain: seq<FetchedBlock>, pending: Option<FetchedBlock>) {
    && Inv(cfg, node, db, false) && AllConverted(cfg, node) && AllWellFormed(chain, pending)
    && 0 < |chain| <= 0x1_0000_0000_0000_0000
  }

  /** A query can read the whole chain exactly if no block is unreadable. */
  lemma ViewExists(cfg: Config, node: Node, db: Db, chain: seq<FetchedBlock>, pending: Option<FetchedBlock>)
    requires Setting(cfg, node, db, chain, pending)
    ensures (exists view :: IsView(cfg, db, chain, pending, view))
       <==> forall n | 0 <= n < |chain| :: !Unreadable(cfg, node, db, chain[n])
  {
    forall n | 0 <= n < |chain| ensures ReadBlock(cfg, db, chain[n]).Some? <==> !Unreadable(cfg, node, db, chain[n]) {
      EventsNameTransactions(cfg, node, db, false, chain[n]);
    }
    if forall n | 0 <= n < |chain| :: !Unreadable(cfg, node, db, chain[n]) {
      var latest: U64 := |chain| - 1;
      var blocks := map n: nat | n < |chain| :: ReadBlock(cfg, db, chain[n]).value;
      var view := ChainView(Some(latest), map[], blocks,
                            if pending.Some? then ReadPending(cfg, pending.value) else None);
      assert IsView(cfg, db, chain, pending, view);
    }
  }

  /** Pending events have neither hash nor number, confirmed events have both. */
  lemma ViewIsProduced(cfg: Config, db: Db, chain: seq<FetchedBlock>, pending: Option<FetchedBlock>, view: ChainView)
    requires IsView(cfg, db, chain, pending, view)
    ensures EventPagingGrowth.Produced(view)
  {
    forall n, k | n in view.blocks && 0 <= k < |view.blocks[n]|
      ensures view.blocks[n][k].blockHash.Some? && view.blocks[n][k].blockNumber.Some?
    {
      assert ReadBlock(cfg, db, chain[n]) == Some(view.blocks[n]);
    }
  }

  /** The events of the blocks n, ..., last, from transactions and receipts alone. */
  ghost function ChainReference(cfg: Config, chain: seq<FetchedBlock>, n: nat, last: nat): seq<EmittedEvent>
    decreases last + 1 - n
  {
    if n > last then []
    else
      (if n < |chain| && |chain[n].receipts| <= |chain[n].transactions| then ReferenceEvents(cfg, chain[n], false)
       else [])
      + ChainReference(cfg, chain, n + 1, last)
  }

  ghost function PendingReference(cfg: Config, pending: Option<FetchedBlock>): seq<EmittedEvent> {
    match pending
    case Some(f) => if |f.receipts| <= |f.transactions| then ReferenceEvents(cfg, f, true) else []
    case None => []
  }

  lemma {:induction false} ConfirmedIsReference(cfg: Config, node: Node, db: Db, chain: seq<FetchedBlock>,
                                                pending: Option<FetchedBlock>, view: ChainView, n: nat, last: nat)
    requires Setting(cfg, node, db, chain, pending) && IsView(cfg, db, chain, pending, view) && last < |chain|
    ensures Confirmed(view, n, last) == ChainReference(cfg, chain, n, last)
    decreases last + 1 - n
  {
    if n <= last {
      assert n in view.blocks && ReadBlock(cfg, db, chain[n]) == Some(view.blocks[n]);
      EventsNameTransactions(cfg, node, db, false, chain[n]);
      ConfirmedIsReference(cfg, node, db, chain, pending, view, n + 1, last);
    }
  }

  lemma PendingIsReference(cfg: Config, node: Node, db: Db, chain: seq<FetchedBlock>, pending: Option<FetchedBlock>,
                           view: ChainView)
    requires Setting(cfg, node, db, chain, pending) && IsView(cfg, db, chain, pending, view)
    ensures PendingEvents(view) == PendingReference(cfg, pending)
  {
    match pending
    case Some(f) => PendingEventsNameTransactions(cfg, f);
    case None =>
  }

  /** The last block of a range that a view has confirmed. */
  function LastConfirmed(view: ChainView, q: Query): nat
    requires BlockRange(view, q.fromBlock, q.toBlock).Ok?
  {
    Min(BlockRange(view, q.fromBlock, q.toBlock).value.last, BlockRange(view, q.fromBlock, q.toBlock).value.latest)
  }

  lemma ShownEvents(cfg: Config, node: Node, db: Db, chain: seq<FetchedBlock>, pending: Option<FetchedBlock>,
                    view: ChainView, q: Query)
    requires Setting(cfg, node, db, chain, pending) && IsView(cfg, db, chain, pending, view)
    requires BlockRange(view, q.fromBlock, q.toBlock).Ok?
    ensures PendingEvents(view) == PendingReference(cfg, pending)
    ensures var from, last := BlockRange(view, q.fromBlock, q.toBlock).value.from, LastConfirmed(view, q);
            Confirmed(view, from, last) == ChainReference(cfg, chain, from, last)
  {
    PendingIsReference(cfg, node, db, chain, pending, view);
    ConfirmedIsReference(cfg, node, db, chain, pending, view,
                         BlockRange(view, q.fromBlock, q.toBlock).value.from, LastConfirmed(view, q));
  }

  lemma PagesOfLists(view: ChainView, q: Query, confirmed: seq<EmittedEvent>, pending: seq<EmittedEvent>)
    requires Good(view, q) && q.continuationToken == None
    requires Confirmed(view, BlockRange(view, q.fromBlock, q.toBlock).value.from, LastConfirmed(view, q)) == confirmed
    requires PendingEvents(view) == pending
    ensures var range := BlockRange(view, q.fromBlock, q.toBlock).value;
            Concat(FollowPages(view, q))
            == (if range.from > range.last then []
                else Matching(q.filter, confirmed) + Repeat(Matching(q.filter, pending), PendingReads(range)))
  {
    PagesOfRange(view, q);
  }

  /**
    For every chain of fetched blocks and every query that its view can answer: the pages hold the matching
    events of the receipts of the range, in order, each with the place of its block and the hash of the
    transaction that emitted it; then those of the pending block, once for every number above the latest one.
   */
  lemma FetchedToPages(cfg: Config, chain: seq<FetchedBlock>, pending: Option<FetchedBlock>, view: ChainView, q: Query)
    requires exists node, db :: Setting(cfg, node, db, chain, pending) && IsView(cfg, db, chain, pending, view)
    requires Good(view, q) && q.continuationToken == None
    ensures var range := BlockRange(view, q.fromBlock, q.toBlock).value;
            Concat(FollowPages(view, q))
            == (if range.from > range.last then []
                else Matching(q.filter, ChainReference(cfg, chain, range.from, LastConfirmed(view, q)))
                     + Repeat(Matching(q.filter, PendingReference(cfg, pending)), PendingReads(range)))
  {
    var from, last := BlockRange(view, q.fromBlock, q.toBlock).value.from, LastConfirmed(view, q);
    var confirmed, waiting := ChainReference(cfg, chain, from, last), PendingReference(cfg, pending);
    assert Confirmed(view, from, last) == confirmed && PendingEvents(view) == waiting by {
      var node, db :| Setting(cfg, node, db, chain, pending) && IsView(cfg, db, chain, pending, view);
      ShownEvents(cfg, node, db, chain, pending, view, q);
    }
    PagesOfLists(view, q, confirmed, waiting);
  }
}
