/** The ledger laws of every reachable `KronDAG`.  The ledger is explained by the faucet
    and the applied vertices: the user vertices in attach order that are neither conflicts
    nor left unsettled by a merge that failed half way. */
module Settlement {
  import opened Basics
  import opened Transactions
  import opened Graphs
  import opened Building
  import opened History
  import opened Dags

  /** The vertices among the first n that a ledger which skips `skip` has applied. */
  function Applied(vs: Vertices, order: seq<TxHash>, skip: set<TxHash>, n: nat): seq<DagTransaction>
    requires n <= |order|
  {
    if n == 0 then []
    else
      var p := Applied(vs, order, skip, n - 1);
      if Skipped(vs, skip, order[n - 1]) then p else p + [vs[order[n - 1]]]
  }

  function AppliedAll(g: Graph, skip: set<TxHash>): seq<DagTransaction> {
    Applied(g.vertices, g.order, skip, |g.order|)
  }

  lemma {:induction false} AppliedSame(vs: Vertices, ws: Vertices, order: seq<TxHash>, more: seq<TxHash>,
                                       skip: set<TxHash>, skip': set<TxHash>, n: nat)
    requires n <= |order| && order <= more
    requires forall i :: 0 <= i < n ==> (order[i] in skip <==> order[i] in skip')
    requires forall i :: 0 <= i < n ==> order[i] in vs && order[i] in ws && vs[order[i]] == ws[order[i]]
    ensures Applied(vs, order, skip, n) == Applied(ws, more, skip', n)
  {
    if n > 0 {
      assert more[n - 1] == order[n - 1];
      AppliedSame(vs, ws, order, more, skip, skip', n - 1);
    }
  }

  /** Nonces start at 0, except that attaching genesis leaves its own key at `b`. */
  function Base(g: Graph, b: nat): map<Address, nat> {
    if g.genesis in g.vertices then map[g.vertices[g.genesis].sender := b] else map[]
  }

  /** The ledger of `d` is what the faucet and the applied vertices make it. */
  ghost predicate Settled(d: Dag, b: nat, unsettled: set<TxHash>) {
    var h := AppliedAll(d.graph, d.conflicts.Keys + unsettled);
    && Explained(d.ledger, d.faucet, h, Base(d.graph, b)) && InNonceOrder(h, Base(d.graph, b))
    && Sound(d.ledger, d.faucet)
    && d.conflicts.Keys + unsettled <= d.graph.vertices.Keys - {d.graph.genesis}
    && d.conflicts.Keys !! unsettled
  }

  /** What every offered vertex satisfies: a non-null id and a cost that fits 64 bits. */
  ghost predicate Offered(tx: DagTransaction) {
    tx.id != NULL_PARENT && tx.Cost() <= U64_MAX
  }

  ghost predicate AllOffered(g: Graph) {
    forall id {:trigger g.vertices[id]} :: id in g.vertices ==> g.vertices[id].Cost() <= U64_MAX
  }

  /** The stored vertices were admitted one by one, with costs that fit. */
  ghost predicate Stocked(d: Dag) {
    Grown(d.graph) && AllOffered(d.graph)
  }

  /** The invariant of every reachable state. */
  ghost predicate Inv(d: Dag, b: nat, unsettled: set<TxHash>) {
    Stocked(d) && b <= 1 && Settled(d, b, unsettled)
  }

  /** Room for one more vertex and the present faucet. */
  ghost predicate RoomFor(d: Dag, more: nat) {
    Room(d.faucet, |d.graph.order| + more)
  }

  // -------------------------------------------------------- applied vertices

  /** An attach order: distinct stored vertices, the first one and only it a genesis. */
  ghost predicate Lined(vs: Vertices, order: seq<TxHash>) {
    NoDup(order) && forall i :: 0 <= i < |order| ==> LinedAt(vs, order, i)
  }

  ghost predicate LinedAt(vs: Vertices, order: seq<TxHash>, i: nat)
    requires i < |order|
  {
    order[i] in vs && vs[order[i]].id == order[i] && (vs[order[i]].IsGenesis() <==> i == 0)
  }

  lemma GrownLined(g: Graph)
    requires Grown(g)
    ensures Lined(g.vertices, g.order) && ToSet(g.order) == g.vertices.Keys && |g.order| == |g.vertices|
    ensures g.order[0] == g.genesis && g.genesis in g.vertices
  {
    GrownShaped(g);
    forall i | 0 <= i < |g.order| ensures LinedAt(g.vertices, g.order, i) {
      assert FirstAt(g.vertices, g.order, i);
    }
  }

  lemma {:induction false} AppliedLength(vs: Vertices, order: seq<TxHash>, skip: set<TxHash>, n: nat)
    requires Lined(vs, order) && 0 < n <= |order| && order[0] !in skip
    ensures |Applied(vs, order, skip, n)| + |skip * ToSet(order[..n])| + 1 == n
  {
    assert LinedAt(vs, order, n - 1);
    SkipGrows(order, skip, n - 1);
    if n > 1 { AppliedLength(vs, order, skip, n - 1); }
    else { NothingSkipped(order, skip); }
  }

  lemma NothingSkipped(order: seq<TxHash>, skip: set<TxHash>)
    ensures |skip * ToSet(order[..0])| == 0
  {
    assert skip * ToSet(order[..0]) == {};
  }

  lemma SkipGrows(order: seq<TxHash>, skip: set<TxHash>, n: nat)
    requires NoDup(order) && n < |order|
    ensures |skip * ToSet(order[..n + 1])| == |skip * ToSet(order[..n])| + if order[n] in skip then 1 else 0
  {
    var a, b := skip * ToSet(order[..n]), skip * ToSet(order[..n + 1]);
    assert order[..n + 1] == order[..n] + [order[n]];
    assert order[n] !in a;
    assert b == a + if order[n] in skip then {order[n]} else {};
  }

  /** Applied, conflicts, unsettled and genesis account for every stored vertex. */
  lemma AppliedCount(g: Graph, skip: set<TxHash>)
    requires Grown(g) && skip <= g.vertices.Keys - {g.genesis}
    ensures |AppliedAll(g, skip)| + |skip| + 1 == |g.vertices|
  {
    GrownLined(g);
    AppliedLength(g.vertices, g.order, skip, |g.order|);
    WholeOrder(g.order, skip);
  }

  lemma WholeOrder(order: seq<TxHash>, skip: set<TxHash>)
    requires skip <= ToSet(order)
    ensures |skip * ToSet(order[..|order|])| == |skip|
  {
    assert order[..|order|] == order;
    assert skip * ToSet(order) == skip;
  }

  /** Every stored vertex that is not skipped is among the applied ones. */
  lemma {:induction false} AppliedHas(vs: Vertices, order: seq<TxHash>, skip: set<TxHash>, n: nat, k: nat)
    requires k < n <= |order| && !Skipped(vs, skip, order[k])
    ensures exists i :: 0 <= i < |Applied(vs, order, skip, n)| && Applied(vs, order, skip, n)[i] == vs[order[k]]
  {
    var h := Applied(vs, order, skip, n);
    if k == n - 1 {
      assert h[|h| - 1] == vs[order[k]];
    } else {
      AppliedHas(vs, order, skip, n - 1, k);
      var p := Applied(vs, order, skip, n - 1);
      var i :| 0 <= i < |p| && p[i] == vs[order[k]];
      assert h[i] == p[i];
    }
  }

  /** Position in attach order of the i-th applied vertex. */
  lemma {:induction false} AppliedFrom(vs: Vertices, order: seq<TxHash>, skip: set<TxHash>, n: nat, i: nat)
      returns (k: nat)
    requires n <= |order| && i < |Applied(vs, order, skip, n)|
    ensures k < n && !Skipped(vs, skip, order[k]) && Applied(vs, order, skip, n)[i] == vs[order[k]]
    ensures Applied(vs, order, skip, n)[..i] == Applied(vs, order, skip, k)
  {
    var h, p := Applied(vs, order, skip, n), Applied(vs, order, skip, n - 1);
    if i < |p| {
      k := AppliedFrom(vs, order, skip, n - 1, i);
      assert h[..i] == p[..i];
    } else {
      k := n - 1;
      assert h[..i] == p;
    }
  }
}
