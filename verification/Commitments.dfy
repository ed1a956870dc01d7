/**
  The commitments to the transactions and to the events of a block. The root of the trie over the leaves is a
  free term, like the hashes.
 */
module Commitments {
  import opened Primitives
  import opened TransactionHash
  import opened Blocks

  /** From this block on, the signatures of all kinds are committed to, not just those of invokes. */
  const FIRST_BLOCK_WITH_SIGNATURES: nat := 61394

  /** The signature that goes into the leaf of a transaction. */
  function CommittedSignature(tx: Transaction, number: nat): seq<Felt> {
    match tx
    case InvokeV0(_, signature, _, _, _) => signature
    case InvokeV1(_, signature, _, _, _) => signature
    case InvokeV3(_, _, signature, _, _, _, _, _, _, _) => signature
    case Deploy(_, _, _, _) => []
    case L1Handler(_, _, _, _, _) => []
    case _ => if number >= FIRST_BLOCK_WITH_SIGNATURES then tx.signature else []
  }

  function TransactionLeaf(chainId: Felt, tx: Transaction, number: nat): Term {
    Pedersen(ComputeHash(PedersenHasher, tx, chainId, false, Some(number)),
             CalldataHash(CommittedSignature(tx, number)))
  }

  function TransactionCommitment(chainId: Felt, transactions: seq<Transaction>, number: nat): Term {
    TrieRoot(seq(|transactions|, k requires 0 <= k < |transactions| =>
      TransactionLeaf(chainId, transactions[k], number)))
  }

  function EventHash(e: Event): Term {
    HashChain([Felt(e.fromAddress), CalldataHash(e.keys), CalldataHash(e.data)])
  }

  /** Without events there is no trie. */
  function EventCommitment(events: seq<Event>): Term {
    if events == [] then Felt(0)
    else TrieRoot(seq(|events|, k requires 0 <= k < |events| => EventHash(events[k])))
  }

  /** The commitment determines number, hashes and committed signatures of the transactions, and nothing more. */
  lemma TransactionCommitmentBinds(c1: Felt, txs1: seq<Transaction>, n1: nat, c2: Felt, txs2: seq<Transaction>, n2: nat)
    ensures TransactionCommitment(c1, txs1, n1) == TransactionCommitment(c2, txs2, n2)
       <==> |txs1| == |txs2|
            && forall k | 0 <= k < |txs1| ::
                 ComputeHash(PedersenHasher, txs1[k], c1, false, Some(n1))
                 == ComputeHash(PedersenHasher, txs2[k], c2, false, Some(n2))
                 && CommittedSignature(txs1[k], n1) == CommittedSignature(txs2[k], n2)
  {
    var a, b := TransactionCommitment(c1, txs1, n1).leaves, TransactionCommitment(c2, txs2, n2).leaves;
    if |txs1| == |txs2| {
      SameLists(a, b);
      forall k | 0 <= k < |txs1|
        ensures a[k] == b[k]
           <==> ComputeHash(PedersenHasher, txs1[k], c1, false, Some(n1))
                == ComputeHash(PedersenHasher, txs2[k], c2, false, Some(n2))
                && CommittedSignature(txs1[k], n1) == CommittedSignature(txs2[k], n2)
      {
        CalldataHashBinds(CommittedSignature(txs1[k], n1), CommittedSignature(txs2[k], n2));
      }
    }
  }

  lemma EventHashBinds(a: Event, b: Event)
    ensures EventHash(a) == EventHash(b) <==> a == b
  {
    var p := [Felt(a.fromAddress), CalldataHash(a.keys), CalldataHash(a.data)];
    var q := [Felt(b.fromAddress), CalldataHash(b.keys), CalldataHash(b.data)];
    HashInjective(PedersenHasher, p, q);
    CalldataHashBinds(a.keys, b.keys);
    CalldataHashBinds(a.data, b.data);
    if p == q {
      assert p[0] == q[0] && p[1] == q[1] && p[2] == q[2];
    }
  }

  /** The commitment determines the list of events. */
  lemma EventCommitmentBinds(a: seq<Event>, b: seq<Event>)
    ensures EventCommitment(a) == EventCommitment(b) <==> a == b
  {
    if a != [] && b != [] && EventCommitment(a) == EventCommitment(b) {
      var p, q := EventCommitment(a).leaves, EventCommitment(b).leaves;
      forall k | 0 <= k < |a| ensures k < |b| && a[k] == b[k] {
        assert p[k] == q[k];
        EventHashBinds(a[k], b[k]);
      }
    }
  }
}
