/** Accepting a replica's bodies in its attach order: every one of them is stored. */
module Ingestion {
  import opened Basics
  import opened Economics
  import opened Transactions
  import opened Graphs
  import opened Building
  import opened Ancestry
  import opened History
  import opened Dags
  import opened Settlement
  import opened Steps
  import opened Runs

  /** `ingest` of one body after the other, results ignored. */
  ghost function Ingest(d: Dag, txs: seq<DagTransaction>): Dag {
    if txs == [] then d else Accept(Ingest(d, txs[..|txs| - 1]), txs[|txs| - 1]).0
  }

  /** Each body is new, fits the graph it arrives at and is stored. */
  ghost predicate AllStored(d: Dag, txs: seq<DagTransaction>) {
    txs != [] ==>
      var before, tx := Ingest(d, txs[..|txs| - 1]), txs[|txs| - 1];
      && AllStored(d, txs[..|txs| - 1])
      && tx.parent1 in before.graph.vertices && tx.parent2 in before.graph.vertices
      && Accept(before, tx).1 == Stored(true)
  }

  /** What is asked of a replica: everything it stores and `d` lacks. */
  ghost function Wanted(d: Dag, remote: Graph): set<TxHash> { remote.vertices.Keys - d.graph.vertices.Keys }

  /** State after the bodies among the first n of the remote attach order. */
  ghost predicate Caught(d: Dag, remote: Graph, m: Dag, b: nat, u: set<TxHash>, n: nat)
    requires n <= |remote.order|
  {
    && Inv(m, b, u) && m.faucet == d.faucet && |m.graph.order| <= |d.graph.order| + n
    && m.graph.vertices.Keys == d.graph.vertices.Keys + ToSet(remote.order[..n])
    && Inside(m.graph.vertices, remote.vertices + d.graph.vertices)
  }

  /** Two replicas that can be reconciled: one genesis, costs that fit, room for the union. */
  ghost predicate Reconcilable(d: Dag, b: nat, u: set<TxHash>, remote: Graph) {
    && Inv(d, b, u) && Grown(remote) && AllOffered(remote) && d.graph.genesis == remote.genesis
    && Room(d.faucet, |d.graph.order| + |remote.order|)
  }

  lemma {:induction false} IngestPrefix(d: Dag, b: nat, u: set<TxHash>, remote: Graph, n: nat)
      returns (b': nat, u': set<TxHash>)
    requires Reconcilable(d, b, u, remote) && n <= |remote.order|
    ensures var txs := BodiesInOrder(remote, Wanted(d, remote), n);
      AllStored(d, txs) && Caught(d, remote, Ingest(d, txs), b', u', n)
  {
    hide Reconcilable, Caught, Accept, Wanted;
    if n == 0 {
      b', u' := b, u;
      CaughtStart(d, b, u, remote);
    } else {
      b', u' := IngestPrefix(d, b, u, remote, n - 1);
      var txs := BodiesInOrder(remote, Wanted(d, remote), n - 1);
      var id := remote.order[n - 1];
      if id in Wanted(d, remote) && id in remote.vertices {
        b', u' := CaughtMore(d, b, u, remote, Ingest(d, txs), b', u', n - 1);
        assert (txs + [remote.vertices[id]])[..|txs|] == txs;
      } else {
        CaughtSkip(d, b, u, remote, Ingest(d, txs), b', u', n - 1);
      }
    }
  }

  lemma CaughtStart(d: Dag, b: nat, u: set<TxHash>, remote: Graph)
    requires Reconcilable(d, b, u, remote)
    ensures Caught(d, remote, d, b, u, 0)
  {
    hide Inv, Grown, AllOffered, Room;
    assert ToSet(remote.order[..0]) == {};
  }

  lemma CaughtSkip(d: Dag, b: nat, u: set<TxHash>, remote: Graph, m: Dag, e: nat, w: set<TxHash>, n: nat)
    requires Reconcilable(d, b, u, remote) && n < |remote.order| && Caught(d, remote, m, e, w, n)
    requires !(remote.order[n] in Wanted(d, remote) && remote.order[n] in remote.vertices)
    ensures Caught(d, remote, m, e, w, n + 1)
  {
    hide Inv, Grown, AllOffered, Room;
    OrderStored(remote, n);
    PrefixMore(remote.order, n);
    hide ToSet;
  }

  lemma OrderStored(g: Graph, n: nat)
    requires Grown(g) && n < |g.order|
    ensures g.order[n] in g.vertices
  {}

  /** What a replica's own attach order says about its n-th body. */
  ghost predicate BodyAt(g: Graph, n: nat)
    requires n < |g.order|
  {
    g.order[n] in g.vertices &&
      var tx := g.vertices[g.order[n]];
      && tx.id == g.order[n] && tx.id != NULL_PARENT && tx.Cost() <= U64_MAX && !tx.IsGenesis()
      && tx.fee == FIXED_TRANSACTION_FEE && tx.keyMatchesSender && tx.signatureValid && tx.VerifyRelayProofs()
      && tx.id !in ToSet(g.order[..n])
      && tx.parent1 in ToSet(g.order[..n]) && tx.parent2 in ToSet(g.order[..n])
      && tx.parent1 != NULL_PARENT && tx.parent2 != NULL_PARENT
  }

  lemma OrderedBody(g: Graph, n: nat)
    requires Grown(g) && AllOffered(g) && 0 < n < |g.order|
    ensures BodyAt(g, n)
  {
    OrderStored(g, n);
    assert g.vertices[g.order[n]].Cost() <= U64_MAX;
    hide Grown, AllOffered, Shaped;
    StoredFee(g, n);
    GrownShaped(g);
    Earlier(g, n);
  }

  /** Parents come earlier in attach order, the vertex itself does not. */
  lemma Earlier(g: Graph, n: nat)
    requires Shaped(g) && 0 < n < |g.order|
    ensures g.order[n] in g.vertices && g.vertices[g.order[n]].id == g.order[n] && !g.vertices[g.order[n]].IsGenesis()
    ensures var tx := g.vertices[g.order[n]];
      && tx.id !in ToSet(g.order[..n]) && tx.parent1 in ToSet(g.order[..n]) && tx.parent2 in ToSet(g.order[..n])
      && tx.parent1 != NULL_PARENT && tx.parent2 != NULL_PARENT
  {
    hide ChildrenOk, TipsOk;
    assert FirstAt(g.vertices, g.order, n);
    NotNull(g.vertices, g.order, n);
  }

  lemma NotNull(vs: Vertices, order: seq<TxHash>, n: nat)
    requires Closed(vs) && ToSet(order) == vs.Keys && n < |order|
    ensures NULL_PARENT !in order[..n]
  {
    assert forall x :: x in order[..n] ==> x in ToSet(order);
  }

  /** The next wanted body passes every check: its parents came first. */
  lemma NextFits(d: Dag, b: nat, u: set<TxHash>, remote: Graph, m: Dag, e: nat, w: set<TxHash>, n: nat)
    requires Reconcilable(d, b, u, remote) && n < |remote.order| && Caught(d, remote, m, e, w, n)
    requires remote.order[n] in Wanted(d, remote) && remote.order[n] in remote.vertices
    ensures var tx := remote.vertices[remote.order[n]];
      && CheckVertex(m.graph.vertices, tx) == Ok && Offered(tx) && tx.id == remote.order[n]
      && tx.parent1 in m.graph.vertices && tx.parent2 in m.graph.vertices
  {
    hide Grown, AllOffered, Settled;
    GrownLined(remote);
    GrownLined(d.graph);
    assert n > 0;
    OrderedBody(remote, n);
  }

  lemma CaughtMore(d: Dag, b: nat, u: set<TxHash>, remote: Graph, m: Dag, e: nat, w: set<TxHash>, n: nat)
      returns (b': nat, u': set<TxHash>)
    requires Reconcilable(d, b, u, remote) && n < |remote.order| && Caught(d, remote, m, e, w, n)
    requires remote.order[n] in Wanted(d, remote) && remote.order[n] in remote.vertices
    ensures var tx := remote.vertices[remote.order[n]];
      && Caught(d, remote, Accept(m, tx).0, b', u', n + 1) && Accept(m, tx).1 == Stored(true)
      && tx.parent1 in m.graph.vertices && tx.parent2 in m.graph.vertices
  {
    var tx := remote.vertices[remote.order[n]];
    CaughtRoom(d, b, u, remote, m, e, w, n);
    NextFits(d, b, u, remote, m, e, w, n);
    hide Reconcilable, Caught, Inv, Grown, CheckVertex, Insert, Accept, Extends, RoomFor, Wanted;
    b', u' := AcceptKeeps(m, e, w, tx);
    InvGrown(m, e, w);
    InsertExtends(m.graph, tx);
    NextCaught(d, remote, m, e, w, tx, Accept(m, tx).0, b', u', n);
  }

  lemma CaughtRoom(d: Dag, b: nat, u: set<TxHash>, remote: Graph, m: Dag, e: nat, w: set<TxHash>, n: nat)
    requires Reconcilable(d, b, u, remote) && n < |remote.order| && Caught(d, remote, m, e, w, n)
    ensures Inv(m, e, w) && RoomFor(m, 1)
  {
    hide Inv, Grown, AllOffered, Inside, ToSet;
  }

  lemma InvGrown(m: Dag, e: nat, w: set<TxHash>)
    requires Inv(m, e, w)
    ensures Grown(m.graph)
  {
    hide Grown, Settled, AllOffered;
  }

  /** The state after the next body. */
  lemma NextCaught(d: Dag, remote: Graph, m: Dag, e: nat, w: set<TxHash>, tx: DagTransaction, r: Dag, b': nat,
                   u': set<TxHash>, n: nat)
    requires n < |remote.order| && Caught(d, remote, m, e, w, n) && remote.order[n] in Wanted(d, remote)
    requires Extends(m.graph, tx, r.graph) && tx.id == remote.order[n] && tx.id in remote.vertices
    requires remote.vertices[tx.id] == tx
    requires Inv(r, b', u') && r.faucet == m.faucet
    ensures Caught(d, remote, r, b', u', n + 1)
  {
    hide Inv;
    PrefixMore(remote.order, n);
    hide ToSet;
  }

  /** Every body a replica sends for what we lack is stored, and then we hold the union. */
  lemma IngestBodies(d: Dag, b: nat, u: set<TxHash>, remote: Graph) returns (b': nat, u': set<TxHash>)
    requires Reconcilable(d, b, u, remote)
    ensures var txs := BodiesInOrder(remote, Wanted(d, remote), |remote.order|);
      && AllStored(d, txs) && Inv(Ingest(d, txs), b', u') && Ingest(d, txs).faucet == d.faucet
      && Ingest(d, txs).graph.vertices == remote.vertices + d.graph.vertices
  {
    hide Inv, Grown, AllOffered, AllStored, Ingest, BodiesInOrder, Room, Lined;
    b', u' := IngestPrefix(d, b, u, remote, |remote.order|);
    GrownLined(remote);
    assert remote.order[..|remote.order|] == remote.order;
  }
}
