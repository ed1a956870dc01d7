/** Starknet blocks, their header hash, and the Substrate headers that wrap them. */
module Blocks {
  import opened Primitives
  import opened Bytes
  import opened TransactionHash

  datatype Event = Event(fromAddress: Felt, keys: seq<Felt>, data: seq<Felt>)

  /** The events of one transaction, with the transaction's index in the block. */
  datatype OrderedEvents = OrderedEvents(index: nat, events: seq<Event>)

  datatype Header = Header(
    parentBlockHash: Term,
    blockNumber: U64,
    globalStateRoot: Felt,
    sequencerAddress: Felt,
    blockTimestamp: U64,
    transactionCount: nat,
    transactionCommitment: Term,
    eventCount: nat,
    eventCommitment: Term,
    protocolVersion: Felt,
    extraData: Option<nat>)

  datatype StarknetBlock = StarknetBlock(header: Header, transactions: seq<Transaction>, events: seq<OrderedEvents>)

  // ----- The header hash

  const FIRST_CAIRO_0_7_BLOCK: nat := 833
  const MAINNET: string := "SN_MAIN"

  function HeaderElements(h: Header): seq<Term> {
    if h.blockNumber >= FIRST_CAIRO_0_7_BLOCK then
      [Felt(h.blockNumber), Felt(h.globalStateRoot), Felt(h.sequencerAddress), Felt(h.blockTimestamp),
       Felt(h.transactionCount), h.transactionCommitment, Felt(h.eventCount), h.eventCommitment,
       Felt(0), Felt(0), h.parentBlockHash]
    else
      [Felt(h.blockNumber), Felt(h.globalStateRoot), Felt(0), Felt(0), Felt(h.transactionCount),
       h.transactionCommitment, Felt(0), Felt(0), Felt(0), Felt(0), Felt(FromBytes(TextBytes(MAINNET))),
       h.parentBlockHash]
  }

  function HeaderHash(h: Header): Term {
    HashOnElements(PedersenHasher, HeaderElements(h))
  }

  /** The fields that the hash of a header depends on. */
  ghost predicate SameHashedFields(a: Header, b: Header) {
    && a.blockNumber == b.blockNumber
    && a.globalStateRoot == b.globalStateRoot
    && a.transactionCount == b.transactionCount
    && a.transactionCommitment == b.transactionCommitment
    && a.parentBlockHash == b.parentBlockHash
    && (a.blockNumber >= FIRST_CAIRO_0_7_BLOCK ==>
          && a.sequencerAddress == b.sequencerAddress
          && a.blockTimestamp == b.blockTimestamp
          && a.eventCount == b.eventCount
          && a.eventCommitment == b.eventCommitment)
  }

  lemma HeaderHashBinding(a: Header, b: Header)
    ensures HeaderHash(a) == HeaderHash(b) <==> SameHashedFields(a, b)
  {
    var p, q := HeaderElements(a), HeaderElements(b);
    HashInjective(PedersenHasher, p, q);
    if |p| == |q| {
      SameLists(p, q);
    }
  }
}
