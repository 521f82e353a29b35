/** What admission (src/dag/engine.rs) and relay proofs (src/dag/tx.rs) come to, field by
    field: when each refusal is given, what every stored vertex therefore carries, and what
    its mint pays to whom. */
module Admission {
  import opened Basics
  import opened Economics
  import opened Transactions
  import opened Ledgers
  import opened Graphs
  import opened Building
  import opened History
  import opened Steps

  // ------------------------------------------------------------ relay proofs

  /** A valid proof for `node` is on the vertex. */
  ghost predicate ProvenBy(tx: DagTransaction, node: Address) {
    exists i :: 0 <= i < |tx.relayProofs| && tx.relayProofs[i].node == node && tx.relayProofs[i].valid
  }

  /** Every proof is valid and names a listed relay, and every listed relay has one. */
  ghost predicate ProofsHold(tx: DagTransaction) {
    && (forall i :: 0 <= i < |tx.relayProofs| ==> tx.relayProofs[i].valid && tx.relayProofs[i].node in tx.relayNodes)
    && (forall n :: n in tx.relayNodes ==> ProvenBy(tx, n))
  }

  lemma ProofsExact(tx: DagTransaction)
    ensures tx.VerifyRelayProofs() <==> ProofsHold(tx)
  {
    if tx.VerifyRelayProofs() {
      forall n | n in tx.relayNodes ensures ProvenBy(tx, n) {
        var i :| 0 <= i < |tx.relayProofs| && tx.relayProofs[i].node == n;
      }
    }
    if ProofsHold(tx) && tx.relayNodes != [] { assert ProvenBy(tx, tx.relayNodes[0]); }
    if ProofsHold(tx) && tx.relayProofs != [] { assert tx.relayProofs[0].node in tx.relayNodes; }
  }

  // --------------------------------------------------------------- admission

  /** The parent is a stored vertex. */
  ghost predicate Present(vs: Vertices, p: TxHash) { p != NULL_PARENT && p in vs }

  /** A new id, and either the first vertex without parents or one whose parents are stored. */
  ghost predicate Placed(vs: Vertices, tx: DagTransaction) {
    && tx.id !in vs
    && if tx.parent1 == 0 && tx.parent2 == 0 then vs == map[] else Present(vs, tx.parent1) && Present(vs, tx.parent2)
  }

  /** 1,000 units, and nothing for a vertex without parents. */
  ghost predicate FeeRight(tx: DagTransaction) {
    tx.fee == if tx.parent1 == 0 && tx.parent2 == 0 then 0 else 1_000
  }

  /** Which vertices are admitted, and for which defect each other one is refused;
      an orphan for the first of its two parents that is not stored. */
  lemma AdmissionExact(vs: Vertices, tx: DagTransaction)
    ensures var r := CheckVertex(vs, tx);
      && (r == Ok <==> Placed(vs, tx) && FeeRight(tx) && tx.keyMatchesSender && tx.signatureValid && ProofsHold(tx))
      && (r == Err(DuplicateTx(tx.id)) <==> tx.id in vs)
      && (r == Err(InvalidGenesis) <==> tx.id !in vs && tx.parent1 == 0 && tx.parent2 == 0 && vs != map[])
      && (r == Err(InvalidFee) <==> Placed(vs, tx) && !FeeRight(tx))
      && (r == Err(AddressMismatch) <==> Placed(vs, tx) && FeeRight(tx) && !tx.keyMatchesSender)
      && (r == Err(InvalidSignature) <==>
            Placed(vs, tx) && FeeRight(tx) && tx.keyMatchesSender && !tx.signatureValid)
      && (r == Err(InvalidRelayProof) <==>
            Placed(vs, tx) && FeeRight(tx) && tx.keyMatchesSender && tx.signatureValid && !ProofsHold(tx))
    ensures forall p :: CheckVertex(vs, tx) == Err(UnknownParent(p)) <==>
      && tx.id !in vs && (tx.parent1 != 0 || tx.parent2 != 0) && !Present(vs, p)
      && (p == tx.parent1 || (p == tx.parent2 && Present(vs, tx.parent1)))
  {
    ProofsExact(tx);
    hide ProofsHold;
  }

  /** What admission left on every stored vertex. */
  lemma StoredExact(g: Graph, id: TxHash)
    requires Grown(g) && id in g.vertices
    ensures var tx := g.vertices[id];
      && tx.id == id != NULL_PARENT && FeeRight(tx) && tx.keyMatchesSender && tx.signatureValid && ProofsHold(tx)
  {
    GrownShaped(g);
    assert id in ToSet(g.order);
    var i :| 0 <= i < |g.order| && g.order[i] == id;
    StoredFee(g, i);
    ProofsExact(g.vertices[id]);
  }

  // ------------------------------------------------------------------ payout

  /** The phones that the proofs name. */
  ghost function Carriers(tx: DagTransaction): set<Address> {
    set i | 0 <= i < |tx.relayProofs| :: tx.relayProofs[i].node
  }

  lemma {:induction false} UniqueFirst(s: seq<Address>)
    requires s != []
    ensures Unique(s) != [] && Unique(s)[0] == s[0]
  {
    if |s| > 1 { UniqueFirst(s[..|s| - 1]); }
  }

  /** Each phone that has proved its relay is listed once, the first carrier first. */
  lemma ProvenAre(tx: DagTransaction)
    requires ProofsHold(tx)
    ensures var r := tx.ProvenRelayNodes();
      && ToSet(r) == Carriers(tx) && |r| == |Carriers(tx)| && NoDup(r)
      && (r == [] <==> tx.relayProofs == []) && (r != [] ==> r[0] == tx.relayProofs[0].node)
  {
    ProofsExact(tx);
    var nodes := ProofNodes(tx.relayProofs);
    assert ToSet(nodes) == Carriers(tx);
    NoDupCard(Unique(nodes));
    if nodes != [] { UniqueFirst(nodes); }
  }

  lemma {:induction false} RelayPaidIs(relays: seq<Address>, total: nat, n: nat, k: nat, a: Address)
    requires k <= |relays| == n && NoDup(relays)
    ensures RelayPaid(relays, RelayParts(total, n), k, a)
         == if a !in relays[..k] then 0 else total / n + if a == relays[0] then total % n else 0
  {
    if k > 0 {
      RelayPaidIs(relays, total, n, k - 1, a);
      assert relays[..k] == relays[..k - 1] + [relays[k - 1]];
    }
  }

  /** What relay phones are paid out of a pool of `pool` units: a fifth, rounded up. */
  ghost function FifthOf(pool: nat): nat { pool - pool * 80 / 100 }

  /** What the k-th confirmed vertex credits to `a` as a relay: the fifth is shared equally
      among the phones with a proof, and the first of them also takes what is left over. */
  lemma RelayPayout(tx: DagTransaction, k: nat, a: Address)
    requires ProofsHold(tx) && tx.fee == 1_000
    ensures var share, n := FifthOf(SubsidyAt(k) + 1_000), |Carriers(tx)|;
      && (a in Carriers(tx) <==> ProvenBy(tx, a))
      && (a !in Carriers(tx) ==> RelayDelta(tx, k, a) == 0)
      && (a in Carriers(tx) ==>
            RelayDelta(tx, k, a) == share / n + if a == tx.relayProofs[0].node then share % n else 0)
  {
    hide SubsidyAt;
    var relays, share := tx.ProvenRelayNodes(), FifthOf(SubsidyAt(k) + 1_000);
    ProvenAre(tx);
    hide ProofsHold, Unique;
    CarriersProve(tx, a);
    assert DagRelayTotalOf(Pool(tx, k)) == share;
    RelayPaidIs(relays, share, |relays|, |relays|, a);
    assert relays[..|relays|] == relays && (a in relays <==> a in ToSet(relays));
  }

  lemma CarriersProve(tx: DagTransaction, a: Address)
    requires ProofsHold(tx)
    ensures a in Carriers(tx) <==> ProvenBy(tx, a)
  {}

  /** What the k-th confirmed vertex does to the balance of `a`: transfer and fee, four fifths
      of subsidy and fee back to the sender (all of it if no phone relayed), relay shares. */
  lemma PayoutExact(tx: DagTransaction, k: nat, a: Address)
    requires ProofsHold(tx) && tx.fee == 1_000
    ensures var pool := SubsidyAt(k) + 1_000;
      Delta(tx, k, a) == (if a == tx.recipient then tx.amount as int else 0) + RelayDelta(tx, k, a)
        + if a != tx.sender then 0
          else (if tx.relayProofs == [] then pool else pool - FifthOf(pool)) - (tx.amount + 1_000)
  {
    hide SubsidyAt, RelayShare;
    ProvenAre(tx);
    ShareSplit(Pool(tx, k));
    hide ProofsHold, Unique;
  }
}
