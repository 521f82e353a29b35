/** Laws of every grown graph: acyclicity, one genesis under everything, a tip above
    everything, and what the cumulative weights count. */
module Weights {
  import opened Basics
  import opened Transactions
  import opened Graphs
  import opened Ancestry
  import opened Building

  // --------------------------------------------------------------- ancestry

  lemma PrefixParentClosed(g: Graph, i: nat)
    requires Shaped(g) && i <= |g.order|
    ensures ParentClosed(g.vertices, ToSet(g.order[..i]))
  {
    forall h, q | h in ToSet(g.order[..i]) && h in g.vertices && IsParent(g.vertices[h], q)
      ensures q in ToSet(g.order[..i])
    {
      var j :| 0 <= j < i && g.order[j] == h;
      assert FirstAt(g.vertices, g.order, j);
    }
  }

  /** The strict ancestors of the i-th vertex were all attached before it. */
  lemma AncestorsEarlier(g: Graph, i: nat)
    requires Shaped(g) && i < |g.order|
    ensures ProperAncestors(g.vertices, g.vertices[g.order[i]]) <= ToSet(g.order[..i])
    ensures ParentsStored(g.vertices, g.vertices[g.order[i]])
  {
    var tx := g.vertices[g.order[i]];
    assert FirstAt(g.vertices, g.order, i);
    ParentsListed(tx);
    PrefixParentClosed(g, i);
    ReachLeast(g.vertices, Parents(tx), ToSet(g.order[..i]));
  }

  lemma IndexOf(g: Graph, v: TxHash) returns (i: nat)
    requires OrderOk(g) && v in g.vertices
    ensures i < |g.order| && g.order[i] == v
  {
    assert v in ToSet(g.order);
    i :| i < |g.order| && g.order[i] == v;
  }

  /** No vertex is its own strict ancestor. */
  lemma Acyclic(g: Graph, v: TxHash)
    requires Shaped(g) && v in g.vertices
    ensures v !in ProperAncestors(g.vertices, g.vertices[v]) && ParentsStored(g.vertices, g.vertices[v])
    ensures ProperAncestors(g.vertices, g.vertices[v]) <= g.vertices.Keys
  {
    var i := IndexOf(g, v);
    AncestorsEarlier(g, i);
  }

  /** A closure is the vertex and its strict ancestors. */
  lemma ClosureUnfold(vs: Vertices, u: TxHash)
    requires Closed(vs) && u in vs && ParentsStored(vs, vs[u])
    ensures Closure(vs, u) == {u} + ProperAncestors(vs, vs[u])
  {
    var tx, all := vs[u], ProperAncestors(vs, vs[u]);
    ParentsListed(tx);
    ReachIsClosed(vs, Parents(tx));
    ClosureIsClosed(vs, u);
    assert ParentClosed(vs, {u} + all) by {
      forall q | IsParent(vs[u], q) ensures q in all { assert q in Parents(tx); assert q in ToSet(Parents(tx)); }
    }
    ClosureLeast(vs, u, {u} + all);
    forall q | q in ToSet(Parents(tx))
      ensures q in Closure(vs, u)
    {
      assert q in Parents(tx); assert IsParent(vs[u], q);
    }
    ReachLeast(vs, Parents(tx), Closure(vs, u));
  }

  /** Every vertex has the genesis among its ancestors. */
  lemma {:induction false} GenesisBelow(g: Graph, i: nat)
    requires Shaped(g) && i < |g.order|
    ensures g.genesis in Closure(g.vertices, g.order[i])
    decreases i
  {
    var v := g.order[i];
    ReachesSelf(g.vertices, v);
    if i > 0 {
      assert FirstAt(g.vertices, g.order, i);
      var p := g.vertices[v].parent1;
      var j :| 0 <= j < i && g.order[j] == p;
      GenesisBelow(g, j);
      ReachesVia(g.vertices, v, p, g.genesis);
    }
  }

  /** Every vertex is a tip or an ancestor of one. */
  lemma {:induction false} TipAbove(g: Graph, i: nat) returns (t: TxHash)
    requires Shaped(g) && i < |g.order|
    ensures t in g.tips && g.order[i] in Closure(g.vertices, t)
    decreases |g.order| - i
  {
    var v := g.order[i];
    if ChildrenOf(g.vertices, v) == {} {
      t := v;
      ReachesSelf(g.vertices, v);
    } else {
      var c :| c in ChildrenOf(g.vertices, v);
      var j := IndexOf(g, c);
      ChildLater(g, i, j);
      t := TipAbove(g, j);
      ReachesSelf(g.vertices, v);
      ReachesVia(g.vertices, c, v, v);
      ReachesTransitive(g.vertices, t, c, v);
    }
  }

  lemma ChildLater(g: Graph, i: nat, j: nat)
    requires Shaped(g) && i < |g.order| && j < |g.order| && IsParent(g.vertices[g.order[j]], g.order[i])
    ensures i < j
  {
    assert FirstAt(g.vertices, g.order, j);
    var k :| 0 <= k < j && g.order[k] == g.order[i];
  }

  // ---------------------------------------------------------------- weights

  /** The vertices whose attach raised the weight of `v`. */
  ghost function Raisers(vs: Vertices, v: TxHash): set<TxHash> {
    set u | u in vs && v in Bumped(vs, vs[u])
  }

  /** The vertices with `v` in their ancestor closure, `v` included. */
  ghost function Approvers(vs: Vertices, v: TxHash): set<TxHash> {
    set u | u in vs && v in Closure(vs, u)
  }

  ghost predicate CountsRaisers(vs: Vertices, weights: map<TxHash, nat>) {
    && weights.Keys == vs.Keys
    && forall v {:trigger weights[v]} :: v in vs ==> weights[v] == 1 + |Raisers(vs, v)|
  }

  ghost predicate WeightsCount(g: Graph) {
    CountsRaisers(g.vertices, g.weights)
  }

  lemma BumpedStable(vs: Vertices, tx: DagTransaction, u: DagTransaction)
    requires Closed(vs) && Fits(vs, tx) && ParentsStored(vs, u)
    ensures Bumped(vs[tx.id := tx], u) == Bumped(vs, u) <= vs.Keys
  {
    ParentsListed(u);
    WalkStable(vs, vs[tx.id := tx], Parents(u), {}, ANCESTOR_WALK_BOUND);
    BumpedExact(vs, u);
  }

  /** Storing `tx` changes no walk, and no walk visits it. */
  ghost predicate WalksKept(vs: Vertices, tx: DagTransaction) {
    && (forall u {:trigger WalkKept(vs, tx, vs[u])} :: u in vs ==> WalkKept(vs, tx, vs[u]))
    && WalkKept(vs, tx, tx)
  }

  ghost predicate WalkKept(vs: Vertices, tx: DagTransaction, u: DagTransaction) {
    Bumped(vs[tx.id := tx], u) == Bumped(vs, u) && Bumped(vs, u) <= vs.Keys
  }

  lemma RaisersGrow(vs: Vertices, tx: DagTransaction, v: TxHash)
    requires tx.id !in vs && WalksKept(vs, tx)
    ensures Raisers(vs[tx.id := tx], v) == Raisers(vs, v) + if v in Bumped(vs, tx) then {tx.id} else {}
    ensures v == tx.id ==> Raisers(vs[tx.id := tx], v) == {}
    ensures Raisers(vs, v) <= vs.Keys
  {
    var ws := vs[tx.id := tx];
    forall u | u in vs ensures u in Raisers(ws, v) <==> u in Raisers(vs, v) {
      assert WalkKept(vs, tx, vs[u]);
    }
    forall u | u in vs && v in Bumped(vs, vs[u]) ensures v in vs {
      assert WalkKept(vs, tx, vs[u]);
    }
    assert tx.id in Raisers(ws, v) <==> v in Bumped(vs, tx);
  }

  lemma AllWalksKept(g: Graph, tx: DagTransaction)
    requires Shaped(g) && Fits(g.vertices, tx)
    ensures WalksKept(g.vertices, tx)
  {
    var vs := g.vertices;
    BumpedStable(vs, tx, tx);
    forall u | u in vs ensures WalkKept(vs, tx, vs[u]) {
      Acyclic(g, u);
      BumpedStable(vs, tx, vs[u]);
    }
  }

  lemma InsertWeights(g: Graph, tx: DagTransaction)
    requires Shaped(g) && WeightsCount(g) && Fits(g.vertices, tx) && |g.vertices| + 1 < U64_MAX
    ensures WeightsCount(Insert(g, tx))
  {
    AllWalksKept(g, tx);
    InsertStores(g, tx);
    InsertWeightAt(g, tx);
    AllRaised(g, tx, Insert(g, tx).weights);
  }

  /** What inserting `tx` makes of the weight of `v`. */
  ghost function NextWeight(g: Graph, tx: DagTransaction, v: TxHash): nat
    requires g.weights.Keys == g.vertices.Keys && v in g.vertices.Keys + {tx.id}
  {
    if v == tx.id then 1 else if v in Bumped(g.vertices, tx) then SatAdd(g.weights[v], 1) else g.weights[v]
  }

  lemma AllRaised(g: Graph, tx: DagTransaction, w: map<TxHash, nat>)
    requires WeightsCount(g) && tx.id !in g.vertices && |g.vertices| + 1 < U64_MAX && WalksKept(g.vertices, tx)
    requires w.Keys == g.vertices.Keys + {tx.id}
    requires forall v {:trigger w[v]} :: v in w ==> w[v] == NextWeight(g, tx, v)
    ensures CountsRaisers(g.vertices[tx.id := tx], w)
  {
    hide NextWeight, WalksKept, Raisers;
    forall v | v in w ensures w[v] == 1 + |Raisers(g.vertices[tx.id := tx], v)| {
      RaisedCount(g, tx, v, w[v]);
    }
  }

  lemma RaisedCount(g: Graph, tx: DagTransaction, v: TxHash, w: nat)
    requires WeightsCount(g) && tx.id !in g.vertices && |g.vertices| + 1 < U64_MAX && v in g.vertices.Keys + {tx.id}
    requires WalksKept(g.vertices, tx) && w == NextWeight(g, tx, v)
    ensures w == 1 + |Raisers(g.vertices[tx.id := tx], v)|
  {
    RaisersGrow(g.vertices, tx, v);
    GrownCard(Raisers(g.vertices, v), g.vertices.Keys, tx.id);
  }

  lemma GrownCard(a: set<TxHash>, b: set<TxHash>, x: TxHash)
    requires a <= b && x !in b
    ensures |a + {x}| == 1 + |a| && |a| <= |b| && |a + {}| == |a|
  {
    SubsetSmaller(a, b);
    assert a + {} == a;
  }

  lemma InsertWeightAt(g: Graph, tx: DagTransaction)
    requires g.weights.Keys == g.vertices.Keys && Fits(g.vertices, tx)
    requires WalkKept(g.vertices, tx, tx)
    ensures Insert(g, tx).weights.Keys == g.vertices.Keys + {tx.id}
    ensures forall v {:trigger Insert(g, tx).weights[v]} :: v in Insert(g, tx).weights ==>
      Insert(g, tx).weights[v] == NextWeight(g, tx, v)
  {
    LinkWeights(g, tx);
    if tx.IsGenesis() { assert Bumped(g.vertices[tx.id := tx], tx) == {}; }
    hide Link, Place, Bumped, Fits;
  }

  lemma LinkWeights(g: Graph, tx: DagTransaction)
    ensures var r := Link(Place(g, tx), tx);
      r.weights == g.weights[tx.id := 1] && r.vertices == g.vertices[tx.id := tx]
  {}

  lemma {:induction false} BuildWeights(txs: seq<DagTransaction>)
    requires Admitted(txs) && |txs| < U64_MAX
    ensures WeightsCount(Build(txs))
  {
    if txs != [] {
      var prefix, last := txs[..|txs| - 1], txs[|txs| - 1];
      BuildWeights(prefix);
      BuildShaped(prefix);
      BuildLists(prefix);
      NoDupCard(Build(prefix).order);
      CheckedFits(Build(prefix).vertices, last);
      InsertWeights(Build(prefix), last);
    }
  }

  ghost predicate WithinBound(vs: Vertices) {
    forall u :: u in vs ==> |ProperAncestors(vs, vs[u])| <= ANCESTOR_WALK_BOUND
  }

  /** `u` raised `v` only if it approves it, and did so if its ancestors fit the bound. */
  ghost predicate RaisesAsApprover(vs: Vertices, u: TxHash, v: TxHash)
    requires u in vs
  {
    && (v in Bumped(vs, vs[u]) ==> v in Closure(vs, u) && u != v)
    && (v in Closure(vs, u) && u != v && |ProperAncestors(vs, vs[u])| <= ANCESTOR_WALK_BOUND ==> v in Bumped(vs, vs[u]))
  }

  lemma RaiserApproves(g: Graph, u: TxHash, v: TxHash)
    requires Shaped(g) && u in g.vertices
    ensures RaisesAsApprover(g.vertices, u, v)
  {
    Acyclic(g, u);
    BumpedExact(g.vertices, g.vertices[u]);
    ClosureUnfold(g.vertices, u);
  }

  lemma RaisersApprove(g: Graph, v: TxHash)
    requires Shaped(g) && v in g.vertices
    ensures {v} + Raisers(g.vertices, v) <= Approvers(g.vertices, v) && v !in Raisers(g.vertices, v)
    ensures WithinBound(g.vertices) ==> {v} + Raisers(g.vertices, v) == Approvers(g.vertices, v)
  {
    forall u | u in g.vertices ensures RaisesAsApprover(g.vertices, u, v) { RaiserApproves(g, u, v); }
    ReachesSelf(g.vertices, v);
    RaisersWithin(g.vertices, v);
  }

  lemma RaisersWithin(vs: Vertices, v: TxHash)
    requires v in vs && v in Closure(vs, v)
    requires forall u {:trigger RaisesAsApprover(vs, u, v)} :: u in vs ==> RaisesAsApprover(vs, u, v)
    ensures {v} + Raisers(vs, v) <= Approvers(vs, v) && v !in Raisers(vs, v)
    ensures WithinBound(vs) ==> {v} + Raisers(vs, v) == Approvers(vs, v)
  {
    forall u | u in vs
      ensures u in Raisers(vs, v) ==> u in Approvers(vs, v) && u != v
      ensures WithinBound(vs) && u in Approvers(vs, v) && u != v ==> u in Raisers(vs, v)
    {
      assert RaisesAsApprover(vs, u, v);
    }
  }

  ghost predicate Exact(g: Graph) {
    && g.weights.Keys == g.vertices.Keys
    && forall v {:trigger g.weights[v]} :: v in g.vertices ==> g.weights[v] == |Approvers(g.vertices, v)|
  }

  /** The cumulative weights are exact - each counts the stored vertices that have the
      vertex in their ancestor closure - if and only if no vertex has more strict ancestors
      than the walk bound. */
  lemma WeightsExact(g: Graph)
    requires Grown(g) && |g.order| < U64_MAX
    ensures g.weights.Keys == g.vertices.Keys
    ensures Exact(g) <==> WithinBound(g.vertices)
  {
    GrownShaped(g);
    BuildWeights(Listed(g));
    forall v | v in g.vertices && WithinBound(g.vertices) ensures g.weights[v] == |Approvers(g.vertices, v)| {
      ExactAt(g, v);
    }
    if !WithinBound(g.vertices) {
      var u :| u in g.vertices && |ProperAncestors(g.vertices, g.vertices[u])| > ANCESTOR_WALK_BOUND;
      var v := Missed(g, u);
      Undercount(g, u, v);
    }
  }

  lemma ExactAt(g: Graph, v: TxHash)
    requires Shaped(g) && WeightsCount(g) && v in g.vertices && WithinBound(g.vertices)
    ensures g.weights[v] == |Approvers(g.vertices, v)|
  {
    RaisersApprove(g, v);
    OneMore(v, Raisers(g.vertices, v), Approvers(g.vertices, v));
  }

  lemma Undercount(g: Graph, u: TxHash, v: TxHash)
    requires Shaped(g) && WeightsCount(g) && v in g.vertices
    requires u in Approvers(g.vertices, v) - ({v} + Raisers(g.vertices, v))
    ensures g.weights[v] < |Approvers(g.vertices, v)|
  {
    RaisersApprove(g, v);
    OneMore(v, Raisers(g.vertices, v), Approvers(g.vertices, v));
  }

  lemma OneMore(v: TxHash, a: set<TxHash>, b: set<TxHash>)
    requires v !in a && {v} + a <= b
    ensures 1 + |a| <= |b| && (1 + |a| == |b| <==> {v} + a == b)
  {
    assert |{v} + a| == 1 + |a|;
    if {v} + a != b { ProperSubsetSmaller({v} + a, b); }
  }

  /** A walk that ran out of room missed some ancestor. */
  lemma Missed(g: Graph, u: TxHash) returns (v: TxHash)
    requires Shaped(g) && u in g.vertices && |ProperAncestors(g.vertices, g.vertices[u])| > ANCESTOR_WALK_BOUND
    ensures v in g.vertices && u in Approvers(g.vertices, v) && u !in {v} + Raisers(g.vertices, v)
  {
    var vs := g.vertices;
    Acyclic(g, u);
    BumpedExact(vs, vs[u]);
    ClosureUnfold(vs, u);
    v :| v in ProperAncestors(vs, vs[u]) && v !in Bumped(vs, vs[u]);
  }

  /** Within the bound, weight strictly falls from a parent to its child. */
  lemma WeightFalls(g: Graph, p: TxHash, c: TxHash)
    requires Grown(g) && |g.order| < U64_MAX && WithinBound(g.vertices)
    requires p in g.vertices && c in g.vertices && IsParent(g.vertices[c], p)
    ensures p in g.weights && c in g.weights && g.weights[c] < g.weights[p]
  {
    GrownShaped(g);
    WeightsExact(g);
    ApproversShrink(g, p, c);
    ProperSubsetSmaller(Approvers(g.vertices, c), Approvers(g.vertices, p));
  }

  lemma ApproversShrink(g: Graph, p: TxHash, c: TxHash)
    requires Shaped(g) && p in g.vertices && c in g.vertices && IsParent(g.vertices[c], p)
    ensures Approvers(g.vertices, c) < Approvers(g.vertices, p)
  {
    ReachesSelf(g.vertices, p);
    ReachesVia(g.vertices, c, p, p);
    forall u | u in Approvers(g.vertices, c)
      ensures u in Approvers(g.vertices, p)
    {
      ReachesTransitive(g.vertices, u, c, p);
    }
    NotAbove(g, p, c);
    assert p in Approvers(g.vertices, p) && p !in Approvers(g.vertices, c);
  }

  lemma NotAbove(g: Graph, p: TxHash, c: TxHash)
    requires Shaped(g) && p in g.vertices && c in g.vertices && IsParent(g.vertices[c], p)
    ensures c !in Closure(g.vertices, p)
  {
    var i := IndexOf(g, p);
    var j := IndexOf(g, c);
    ChildLater(g, i, j);
    PrefixParentClosed(g, i + 1);
    ClosureLeast(g.vertices, p, ToSet(g.order[..i + 1]));
  }
}
