/** src/dag/tx.rs and src/dag/error.rs: a vertex as the ledger sees it.  Hashing and
    ML-DSA verification are outside the model: their verdicts are fields. */
module Transactions {
  import opened Basics

  /** `valid`: the carrier's key hashes to `node` and verifies the carrier message. */
  datatype RelayProof = RelayProof(node: Address, valid: bool)

  datatype DagTransaction = DagTransaction(
    id: TxHash, parent1: TxHash, parent2: TxHash,
    sender: Address, recipient: Address,
    amount: u64, fee: u64, nonce: u64,
    keyMatchesSender: bool, signatureValid: bool,
    relayNodes: seq<Address>, relayProofs: seq<RelayProof>)
  {
    predicate IsGenesis() {
      parent1 == NULL_PARENT && parent2 == NULL_PARENT
    }

    /** Every named relay has a proof, every proof is for a named relay and valid. */
    predicate VerifyRelayProofs() {
      if relayNodes == [] then relayProofs == []
      else
        && relayProofs != []
        && (forall n :: n in relayNodes ==> exists i :: 0 <= i < |relayProofs| && relayProofs[i].node == n)
        && (forall i :: 0 <= i < |relayProofs| ==> relayProofs[i].node in relayNodes && relayProofs[i].valid)
    }

    function ProvenRelayNodes(): (r: seq<Address>)
      ensures NoDup(r)
    {
      if VerifyRelayProofs() then Unique(ProofNodes(relayProofs)) else []
    }

    function Cost(): nat { amount + fee }
  }

  datatype DagError =
    | UnknownParent(parent: TxHash)
    | InvalidSignature
    | InsufficientBalance
    | DoubleSpend(nonce: nat)
    | DuplicateTx(id: TxHash)
    | InvalidGenesis
    | InvalidFee
    | AddressMismatch
    | Overflow
    | InvalidRelayProof

  datatype Outcome = Ok | Err(error: DagError)

  function ProofNodes(ps: seq<RelayProof>): (r: seq<Address>)
    ensures |r| == |ps| && forall i :: 0 <= i < |ps| ==> r[i] == ps[i].node
  {
    seq(|ps|, i requires 0 <= i < |ps| => ps[i].node)
  }

  /** First occurrences, in order. */
  function Unique(s: seq<Address>): (r: seq<Address>)
    ensures NoDup(r) && ToSet(r) == ToSet(s)
  {
    if s == [] then []
    else
      var u := Unique(s[..|s| - 1]);
      var last := s[|s| - 1];
      assert s == s[..|s| - 1] + [last];
      assert forall x :: x in s <==> x in s[..|s| - 1] || x == last;
      assert forall x :: x in u <==> x in ToSet(u);
      if last in u then u else u + [last]
  }

  /** A list without repetitions is left alone, so deduplicating twice is harmless. */
  lemma {:induction false} UniqueIdentity(s: seq<Address>)
    requires NoDup(s)
    ensures Unique(s) == s
  {
    if s != [] {
      var p := s[..|s| - 1];
      UniqueIdentity(p);
      assert s == p + [s[|s| - 1]];
    }
  }

  /** `unique_relays` of src/dag/minting.rs and the loop of `proven_relay_nodes`. */
  method UniqueRelays(nodes: seq<Address>) returns (out: seq<Address>)
    ensures out == Unique(nodes)
  {
    out := [];
    for i := 0 to |nodes|
      invariant out == Unique(nodes[..i])
    {
      assert nodes[..i + 1][..i] == nodes[..i];
      if nodes[i] !in out {
        out := out + [nodes[i]];
      }
    }
    assert nodes[..|nodes|] == nodes;
  }

  method ProvenRelays(tx: DagTransaction) returns (out: seq<Address>)
    ensures out == tx.ProvenRelayNodes()
  {
    if !tx.VerifyRelayProofs() {
      return [];
    }
    var nodes := ProofNodes(tx.relayProofs);
    out := UniqueRelays(nodes);
  }
}
