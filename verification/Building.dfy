/** Reachable graphs.  A graph is `Grown` when it is what inserting its own vertices,
    each admitted in attach order, builds; the shape laws of src/dag/engine.rs follow. */
module Building {
  import opened Basics
  import opened Transactions
  import opened Graphs
  import opened Ancestry

  function Build(txs: seq<DagTransaction>): Graph {
    if txs == [] then EMPTY else Insert(Build(txs[..|txs| - 1]), txs[|txs| - 1])
  }

  /** Every vertex passes the admission checks against the ones before it. */
  ghost predicate Admitted(txs: seq<DagTransaction>) {
    txs != [] ==>
      var prefix, last := txs[..|txs| - 1], txs[|txs| - 1];
      Admitted(prefix) && last.id != NULL_PARENT && CheckVertex(Build(prefix).vertices, last) == Ok
  }

  /** Every vertex of `vs` is one of `all`. */
  ghost predicate Inside(vs: Vertices, all: Vertices) {
    forall h {:trigger vs[h]} {:trigger all[h]} :: h in vs ==> h in all && vs[h] == all[h]
  }

  /** The bodies stored under `s`, in that order. */
  function Bodies(batch: Vertices, s: seq<TxHash>): (r: seq<DagTransaction>)
    requires forall i :: 0 <= i < |s| ==> s[i] in batch
    ensures |r| == |s| && forall i :: 0 <= i < |s| ==> r[i] == batch[s[i]]
  {
    seq(|s|, i requires 0 <= i < |s| => batch[s[i]])
  }

  /** The stored vertices in attach order (`transactions_in_order`). */
  function Listed(g: Graph): (txs: seq<DagTransaction>)
    requires forall i :: 0 <= i < |g.order| ==> g.order[i] in g.vertices
    ensures |txs| == |g.order| && forall i :: 0 <= i < |txs| ==> txs[i] == g.vertices[g.order[i]]
  {
    Bodies(g.vertices, g.order)
  }

  ghost predicate Grown(g: Graph) {
    && g.order != []
    && (forall i :: 0 <= i < |g.order| ==> g.order[i] in g.vertices)
    && Admitted(Listed(g)) && Build(Listed(g)) == g
  }

  // ------------------------------------------------------------- shape laws

  /** `attach_order` lists the stored vertices once each. */
  ghost predicate OrderOk(g: Graph) {
    && NoDup(g.order) && ToSet(g.order) == g.vertices.Keys && Closed(g.vertices)
    && (forall i :: 0 <= i < |g.order| ==> g.order[i] in g.vertices)
  }

  /** Only the first vertex is a genesis; every other one comes after its parents. */
  ghost predicate ParentsFirst(g: Graph) {
    && (g.order == [] ==> g.genesis == NULL_PARENT)
    && (g.order != [] ==> g.genesis == g.order[0])
    && forall i :: 0 <= i < |g.order| ==> FirstAt(g.vertices, g.order, i)
  }

  ghost predicate FirstAt(vs: Vertices, order: seq<TxHash>, i: nat)
    requires i < |order|
  {
    order[i] in vs ==>
      var tx := vs[order[i]];
      (tx.IsGenesis() <==> i == 0) && (i > 0 ==> tx.parent1 in order[..i] && tx.parent2 in order[..i])
  }

  ghost function ChildrenOf(vs: Vertices, p: TxHash): set<TxHash> {
    set c | c in vs && IsParent(vs[c], p)
  }

  /** `children` is exactly the inverse of the parent relation. */
  ghost predicate ChildrenOk(g: Graph) {
    && g.children.Keys == g.vertices.Keys
    && forall p :: p in g.vertices ==> g.children[p] == ChildrenOf(g.vertices, p)
  }

  /** The tips are exactly the childless vertices. */
  ghost predicate TipsOk(g: Graph) {
    && g.tips <= g.vertices.Keys
    && forall v :: v in g.vertices ==> (v in g.tips <==> ChildrenOf(g.vertices, v) == {})
  }

  ghost predicate Shaped(g: Graph) {
    OrderOk(g) && ParentsFirst(g) && ChildrenOk(g) && TipsOk(g)
  }

  /** What the admission checks say about ids and parents. */
  ghost predicate Fits(vs: Vertices, tx: DagTransaction) {
    && tx.id != NULL_PARENT && tx.id !in vs
    && (if tx.IsGenesis() then vs == map[] else tx.parent1 in vs && tx.parent2 in vs)
  }

  lemma CheckedFits(vs: Vertices, tx: DagTransaction)
    requires tx.id != NULL_PARENT && CheckVertex(vs, tx) == Ok
    ensures Fits(vs, tx)
  {}

  /** `r` is `g` with `tx` stored: everything but the weights. */
  ghost predicate Stores(g: Graph, tx: DagTransaction, r: Graph) {
    && r.vertices == g.vertices[tx.id := tx] && r.order == g.order + [tx.id]
    && r.genesis == (if tx.IsGenesis() then tx.id else g.genesis)
    && r.children.Keys == g.children.Keys + {tx.id}
    && (forall p :: p in g.vertices && p in g.children ==>
          r.children[p] == g.children[p] + if IsParent(tx, p) then {tx.id} else {})
    && r.children[tx.id] == {}
    && r.tips == g.tips + {tx.id} - (set q | q in g.vertices && IsParent(tx, q))
  }

  /** What placing a vertex and the two child notes do. */
  lemma InsertStores(g: Graph, tx: DagTransaction)
    requires g.children.Keys == g.vertices.Keys && Fits(g.vertices, tx)
    ensures Stores(g, tx, Insert(g, tx))
  {
    LinkStores(g, tx);
    var linked := Link(Place(g, tx), tx);
    assert Insert(g, tx).(weights := linked.weights, genesis := linked.genesis) == linked;
  }

  lemma LinkStores(g: Graph, tx: DagTransaction)
    requires g.children.Keys == g.vertices.Keys && Fits(g.vertices, tx)
    ensures var r := Link(Place(g, tx), tx);
      Stores(g, tx, r.(genesis := if tx.IsGenesis() then tx.id else g.genesis))
  {
    LinkTips(g, tx);
    LinkChildren(g, tx);
    var r := Link(Place(g, tx), tx);
    assert r.vertices == g.vertices[tx.id := tx] && r.order == g.order + [tx.id];
    hide Link, Place, IsParent;
  }

  lemma LinkChildren(g: Graph, tx: DagTransaction)
    requires g.children.Keys == g.vertices.Keys && Fits(g.vertices, tx)
    ensures var r := Link(Place(g, tx), tx);
      && r.children.Keys == g.children.Keys + {tx.id} && r.children[tx.id] == {}
      && (forall p :: p in g.vertices && p in g.children ==>
            r.children[p] == g.children[p] + if IsParent(tx, p) then {tx.id} else {})
  {}

  lemma LinkTips(g: Graph, tx: DagTransaction)
    requires Fits(g.vertices, tx)
    ensures Link(Place(g, tx), tx).tips == g.tips + {tx.id} - (set q | q in g.vertices && IsParent(tx, q))
  {}

  lemma StoredOrder(g: Graph, tx: DagTransaction, r: Graph)
    requires OrderOk(g) && Fits(g.vertices, tx) && Stores(g, tx, r)
    ensures OrderOk(r)
  {
    assert tx.id !in ToSet(g.order);
    forall x ensures x in ToSet(r.order) <==> x in r.vertices { assert x in ToSet(g.order) <==> x in g.vertices; }
  }

  lemma StoredParentsFirst(g: Graph, tx: DagTransaction, r: Graph)
    requires OrderOk(g) && ParentsFirst(g) && Fits(g.vertices, tx) && Stores(g, tx, r)
    ensures ParentsFirst(r)
  {
    var n := |g.order|;
    forall i | 0 <= i < n ensures FirstAt(r.vertices, r.order, i) {
      FirstAtKept(g.vertices, g.order, tx, i);
    }
    LastAt(g, tx, r);
  }

  lemma FirstAtKept(vs: Vertices, order: seq<TxHash>, tx: DagTransaction, i: nat)
    requires i < |order| && FirstAt(vs, order, i) && order[i] in vs && tx.id !in vs
    ensures FirstAt(vs[tx.id := tx], order + [tx.id], i)
  {
    assert (order + [tx.id])[..i] == order[..i];
  }

  lemma LastAt(g: Graph, tx: DagTransaction, r: Graph)
    requires OrderOk(g) && Fits(g.vertices, tx) && Stores(g, tx, r)
    ensures FirstAt(r.vertices, r.order, |g.order|)
  {
    assert r.order[..|g.order|] == g.order;
    assert forall p :: p in g.vertices <==> p in ToSet(g.order);
    assert |g.order| > 0 ==> g.order[0] in g.vertices;
  }

  lemma StoredChildren(g: Graph, tx: DagTransaction, r: Graph)
    requires OrderOk(g) && ChildrenOk(g) && Fits(g.vertices, tx) && Stores(g, tx, r)
    ensures ChildrenOk(r)
  {
    forall p | p in g.vertices ensures r.children[p] == ChildrenOf(r.vertices, p) {
      ChildrenGrow(g.vertices, tx, p);
    }
    NoChildrenYet(g.vertices, tx);
  }

  lemma ChildrenGrow(vs: Vertices, tx: DagTransaction, p: TxHash)
    requires tx.id !in vs
    ensures ChildrenOf(vs[tx.id := tx], p) == ChildrenOf(vs, p) + if IsParent(tx, p) then {tx.id} else {}
  {}

  lemma NoChildrenYet(vs: Vertices, tx: DagTransaction)
    requires Closed(vs) && Fits(vs, tx)
    ensures ChildrenOf(vs[tx.id := tx], tx.id) == {}
  {
    var ws := vs[tx.id := tx];
    forall c | c in ws ensures !IsParent(ws[c], tx.id) {}
  }

  lemma StoredTips(g: Graph, tx: DagTransaction, r: Graph)
    requires OrderOk(g) && TipsOk(g) && Fits(g.vertices, tx) && Stores(g, tx, r)
    ensures TipsOk(r)
  {
    NoChildrenYet(g.vertices, tx);
    forall v | v in g.vertices ensures v in r.tips <==> ChildrenOf(r.vertices, v) == {} {
      ChildrenGrow(g.vertices, tx, v);
      assert v in g.tips <==> ChildrenOf(g.vertices, v) == {};
      assert tx.id in {tx.id};
    }
  }

  lemma InsertShaped(g: Graph, tx: DagTransaction)
    requires Shaped(g) && Fits(g.vertices, tx)
    ensures Shaped(Insert(g, tx))
  {
    var r := Insert(g, tx);
    InsertStores(g, tx);
    StoredOrder(g, tx, r);
    StoredParentsFirst(g, tx, r);
    StoredChildren(g, tx, r);
    StoredTips(g, tx, r);
  }

  lemma {:induction false} BuildShaped(txs: seq<DagTransaction>)
    requires Admitted(txs)
    ensures Shaped(Build(txs))
  {
    if txs != [] {
      var prefix, last := txs[..|txs| - 1], txs[|txs| - 1];
      BuildShaped(prefix);
      CheckedFits(Build(prefix).vertices, last);
      InsertShaped(Build(prefix), last);
    }
  }

  lemma BuildStep(txs: seq<DagTransaction>, tx: DagTransaction)
    ensures Build(txs + [tx]) == Insert(Build(txs), tx)
    ensures Admitted(txs + [tx]) <==>
      Admitted(txs) && tx.id != NULL_PARENT && CheckVertex(Build(txs).vertices, tx) == Ok
  {
    assert (txs + [tx])[..|txs|] == txs;
  }

  ghost predicate Lists(g: Graph, txs: seq<DagTransaction>) {
    && |g.order| == |txs|
    && forall i :: 0 <= i < |txs| ==>
      g.order[i] == txs[i].id && txs[i].id in g.vertices && g.vertices[txs[i].id] == txs[i]
  }

  lemma {:induction false} BuildLists(txs: seq<DagTransaction>)
    requires Admitted(txs)
    ensures Lists(Build(txs), txs)
  {
    if txs != [] {
      var prefix, last := txs[..|txs| - 1], txs[|txs| - 1];
      assert txs == prefix + [last];
      BuildLists(prefix);
      BuildShaped(prefix);
      BuildStep(prefix, last);
      InsertLists(Build(prefix), prefix, last);
    }
  }

  lemma InsertLists(g: Graph, txs: seq<DagTransaction>, tx: DagTransaction)
    requires Lists(g, txs) && Shaped(g) && tx.id != NULL_PARENT && CheckVertex(g.vertices, tx) == Ok
    ensures Lists(Insert(g, tx), txs + [tx])
  {
    CheckedFits(g.vertices, tx);
    InsertStores(g, tx);
    ListsMore(g, txs, tx, Insert(g, tx));
  }

  lemma ListsMore(g: Graph, txs: seq<DagTransaction>, tx: DagTransaction, r: Graph)
    requires Lists(g, txs) && Stores(g, tx, r) && tx.id !in g.vertices
    ensures Lists(r, txs + [tx])
  {
    var all := txs + [tx];
    forall i | 0 <= i < |all|
      ensures r.order[i] == all[i].id && all[i].id in r.vertices && r.vertices[all[i].id] == all[i]
    {
      if i < |txs| { assert txs[i].id in g.vertices; }
    }
  }

  /** Building an admitted list gives a grown graph that lists it back. */
  lemma BuildGrown(txs: seq<DagTransaction>)
    requires Admitted(txs) && txs != []
    ensures Grown(Build(txs)) && Listed(Build(txs)) == txs
  {
    BuildLists(txs);
    assert Listed(Build(txs)) == txs;
  }

  /** Every step that stores an admitted vertex keeps the graph grown. */
  lemma InsertGrown(g: Graph, tx: DagTransaction)
    requires Grown(g) && tx.id != NULL_PARENT && CheckVertex(g.vertices, tx) == Ok
    ensures Grown(Insert(g, tx)) && Listed(Insert(g, tx)) == Listed(g) + [tx]
  {
    BuildStep(Listed(g), tx);
    BuildGrown(Listed(g) + [tx]);
  }

  /** The shape laws hold of every grown graph. */
  lemma GrownShaped(g: Graph)
    requires Grown(g)
    ensures Shaped(g) && g.genesis == g.order[0] && g.genesis in g.vertices
    ensures |g.vertices| == |g.order|
  {
    BuildShaped(Listed(g));
    NoDupCard(g.order);
  }
}
