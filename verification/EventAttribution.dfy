/** From the receipts of a fetched block to its events, each with the hash of its transaction. */
module EventAttribution {
  import opened Primitives
  import opened TransactionHash
  import opened Blocks
  import opened Commitments
  import opened EventPaging

  /** A receipt holds the events of the transaction with the same index. */
  datatype Receipt = Receipt(events: seq<Event>)

  /** A block as it is fetched. The header's counts and commitments are still to be filled in. */
  datatype FetchedBlock = FetchedBlock(header: Header, transactions: seq<Transaction>, receipts: seq<Receipt>)

  // ----- Converting a fetched block

  /** The receipts that have events, with their indices; `i` is the index of the first receipt. */
  function OrderedEventsFrom(receipts: seq<Receipt>, i: nat): seq<OrderedEvents> {
    if receipts == [] then []
    else if receipts[0].events == [] then OrderedEventsFrom(receipts[1..], i + 1)
    else [OrderedEvents(i, receipts[0].events)] + OrderedEventsFrom(receipts[1..], i + 1)
  }

  function AllReceiptEvents(receipts: seq<Receipt>): seq<Event> {
    if receipts == [] then [] else receipts[0].events + AllReceiptEvents(receipts[1..])
  }

  /** Counts, commitments and ordered events come from transactions and receipts. */
  function ConvertBlock(chainId: Felt, f: FetchedBlock): StarknetBlock {
    var events := AllReceiptEvents(f.receipts);
    StarknetBlock(
      f.header.(transactionCount := |f.transactions|,
                transactionCommitment := TransactionCommitment(chainId, f.transactions, f.header.blockNumber),
                eventCount := |events|,
                eventCommitment := EventCommitment(events)),
      f.transactions,
      OrderedEventsFrom(f.receipts, 0))
  }

  // ----- Reading the events back

  /** An event with the hash of its transaction. */
  datatype HashedEvent = HashedEvent(hash: Term, event: Event)

  function WithHash(hash: Term, events: seq<Event>): (r: seq<HashedEvent>)
    ensures |r| == |events|
  {
    seq(|events|, k requires 0 <= k < |events| => HashedEvent(hash, events[k]))
  }

  /** Looks up the hash of each entry by its index. No value if an index is out of range. */
  function Flatten(ordered: seq<OrderedEvents>, hashes: seq<Term>): Option<seq<HashedEvent>> {
    if ordered == [] then Some([])
    else if ordered[0].index >= |hashes| then None
    else
      match Flatten(ordered[1..], hashes)
      case None => None
      case Some(rest) => Some(WithHash(hashes[ordered[0].index], ordered[0].events) + rest)
  }

  /** What should come out: the events of each receipt, in order, with the hash at the same position. */
  function Attributed(receipts: seq<Receipt>, hashes: seq<Term>): seq<HashedEvent>
    requires |receipts| <= |hashes|
  {
    if receipts == [] then [] else WithHash(hashes[0], receipts[0].events) + Attributed(receipts[1..], hashes[1..])
  }

  lemma {:induction false} FlattenIsAttributed(receipts: seq<Receipt>, i: nat, hashes: seq<Term>)
    requires i + |receipts| <= |hashes|
    ensures Flatten(OrderedEventsFrom(receipts, i), hashes) == Some(Attributed(receipts, hashes[i..]))
    ensures |Attributed(receipts, hashes[i..])| == |AllReceiptEvents(receipts)|
    decreases receipts
  {
    if receipts != [] {
      FlattenIsAttributed(receipts[1..], i + 1, hashes);
      assert hashes[i..][1..] == hashes[i + 1..];
      assert hashes[i..][0] == hashes[i];
      var ordered := OrderedEventsFrom(receipts, i);
      if receipts[0].events == [] {
        assert WithHash(hashes[i], []) + Attributed(receipts[1..], hashes[i + 1..])
            == Attributed(receipts[1..], hashes[i + 1..]);
      } else {
        assert ordered[1..] == OrderedEventsFrom(receipts[1..], i + 1);
      }
    }
  }

  /**
    Dropping the receipts without events and finding the rest again by index loses nothing, mixes up
    nothing, and agrees with the header's count.
   */
  lemma AttributionIsRight(chainId: Felt, f: FetchedBlock, hashes: seq<Term>)
    requires |f.receipts| <= |f.transactions| == |hashes|
    ensures var b := ConvertBlock(chainId, f);
            && Flatten(b.events, hashes) == Some(Attributed(f.receipts, hashes))
            && |Attributed(f.receipts, hashes)| == b.header.eventCount
  {
    FlattenIsAttributed(f.receipts, 0, hashes);
    assert hashes[0..] == hashes;
  }

  /** In general the lookup goes out of range exactly if a receipt with events has no hash at its index. */
  lemma {:induction false} FlattenInRange(receipts: seq<Receipt>, i: nat, hashes: seq<Term>)
    ensures Flatten(OrderedEventsFrom(receipts, i), hashes).Some?
       <==> forall k | 0 <= k < |receipts| && receipts[k].events != [] :: i + k < |hashes|
    decreases receipts
  {
    if receipts != [] {
      FlattenInRange(receipts[1..], i + 1, hashes);
      assert forall k | 0 <= k < |receipts[1..]| :: receipts[1..][k] == receipts[k + 1];
      var ordered := OrderedEventsFrom(receipts, i);
      if receipts[0].events != [] {
        assert ordered[1..] == OrderedEventsFrom(receipts[1..], i + 1);
      }
      if forall k | 0 <= k < |receipts[1..]| && receipts[1..][k].events != [] :: i + 1 + k < |hashes| {
        forall k | 1 <= k < |receipts| && receipts[k].events != [] ensures i + k < |hashes| {
          assert receipts[1..][k - 1] == receipts[k];
        }
      }
    }
  }

  // ----- The emitted events of a block

  /** The pending block has neither hash nor number. */
  function Emitted(b: StarknetBlock, pending: bool, e: HashedEvent): EmittedEvent {
    EmittedEvent(e.event.fromAddress, e.event.keys, e.event.data,
                 if pending then None else Some(HeaderHash(b.header)),
                 if pending then None else Some(b.header.blockNumber),
                 e.hash)
  }

  function GetBlockEvents(b: StarknetBlock, pending: bool, hashes: seq<Term>): Option<seq<EmittedEvent>> {
    match Flatten(b.events, hashes)
    case None => None
    case Some(es) => Some(seq(|es|, k requires 0 <= k < |es| => Emitted(b, pending, es[k])))
  }

  /** The transaction with index `i` emitted `event`. */
  ghost predicate EmittedBy(receipts: seq<Receipt>, i: nat, event: Event) {
    i < |receipts| && event in receipts[i].events
  }

  lemma {:induction false} AttributedEvent(receipts: seq<Receipt>, hashes: seq<Term>, k: nat)
    requires |receipts| <= |hashes| && k < |Attributed(receipts, hashes)|
    ensures exists i: nat :: i < |receipts| && Attributed(receipts, hashes)[k].hash == hashes[i]
                          && EmittedBy(receipts, i, Attributed(receipts, hashes)[k].event)
    decreases receipts
  {
    var own := WithHash(hashes[0], receipts[0].events);
    if k < |own| {
      assert EmittedBy(receipts, 0, Attributed(receipts, hashes)[k].event);
    } else {
      AttributedEvent(receipts[1..], hashes[1..], k - |own|);
      var e := Attributed(receipts[1..], hashes[1..])[k - |own|];
      var i: nat :| i < |receipts[1..]| && e.hash == hashes[1..][i] && EmittedBy(receipts[1..], i, e.event);
      assert e == Attributed(receipts, hashes)[k];
      assert hashes[i + 1] == hashes[1..][i] && EmittedBy(receipts, i + 1, e.event);
    }
  }

  /** Every event that a query returns for a block names a transaction of the block that emitted it. */
  lemma BlockEventsNameEmitters(chainId: Felt, f: FetchedBlock, hashes: seq<Term>, pending: bool)
    requires |f.receipts| <= |f.transactions| == |hashes|
    ensures var b := ConvertBlock(chainId, f);
            var r := GetBlockEvents(b, pending, hashes);
            && r.Some? && |r.value| == b.header.eventCount
            && forall k | 0 <= k < |r.value| ::
                 exists i: nat ::
                   && i < |f.receipts| && r.value[k].transactionHash == hashes[i]
                   && EmittedBy(f.receipts, i, Event(r.value[k].fromAddress, r.value[k].keys, r.value[k].data))
  {
    AttributionIsRight(chainId, f, hashes);
    var es := Attributed(f.receipts, hashes);
    forall k | 0 <= k < |es|
      ensures exists i: nat :: i < |f.receipts| && es[k].hash == hashes[i] && EmittedBy(f.receipts, i, es[k].event)
    {
      AttributedEvent(f.receipts, hashes, k);
    }
  }
}
