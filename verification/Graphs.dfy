/** The graph half of `KronDAG` (src/dag/engine.rs): admission checks, the bounded
    ancestor walk, and vertex insertion as functions of the graph value. */
module Graphs {
  import opened Basics
  import opened Economics
  import opened Transactions

  const ANCESTOR_WALK_BOUND: nat := 1_024

  type Vertices = map<TxHash, DagTransaction>

  /** `genesis` is NULL_PARENT until a genesis vertex is stored. */
  datatype Graph = Graph(
    vertices: Vertices,
    children: map<TxHash, set<TxHash>>,
    tips: set<TxHash>,
    weights: map<TxHash, nat>,
    order: seq<TxHash>,
    genesis: TxHash)

  const EMPTY: Graph := Graph(map[], map[], {}, map[], [], NULL_PARENT)

  function CheckParents(vs: Vertices, tx: DagTransaction): Outcome {
    if tx.IsGenesis() then
      if vs != map[] then Err(InvalidGenesis) else Ok
    else if tx.parent1 == NULL_PARENT || tx.parent1 !in vs then Err(UnknownParent(tx.parent1))
    else if tx.parent2 == NULL_PARENT || tx.parent2 !in vs then Err(UnknownParent(tx.parent2))
    else Ok
  }

  /** The checks shared by `attach_vertex_and_maybe_mint` and `insert_graph_only`, in order. */
  function CheckVertex(vs: Vertices, tx: DagTransaction): Outcome {
    if tx.id in vs then Err(DuplicateTx(tx.id))
    else if CheckParents(vs, tx) != Ok then CheckParents(vs, tx)
    else if tx.fee != (if tx.IsGenesis() then 0 else FIXED_TRANSACTION_FEE) then Err(InvalidFee)
    else if !tx.keyMatchesSender then Err(AddressMismatch)
    else if !tx.signatureValid then Err(InvalidSignature)
    else if !tx.VerifyRelayProofs() then Err(InvalidRelayProof)
    else Ok
  }

  /** The parents an ancestor walk pushes: parent 1, then parent 2 when it differs. */
  function Parents(tx: DagTransaction): seq<TxHash> {
    (if tx.parent1 != NULL_PARENT then [tx.parent1] else [])
    + (if tx.parent2 != NULL_PARENT && tx.parent2 != tx.parent1 then [tx.parent2] else [])
  }

  function ParentsOf(vs: Vertices, h: TxHash): seq<TxHash> {
    if h in vs then Parents(vs[h]) else []
  }

  /** Depth-first walk over parents that visits at most `room` more vertices; returns
      every vertex visited. */
  function Walk(vs: Vertices, stack: seq<TxHash>, done: set<TxHash>, room: nat): set<TxHash>
    decreases room, |stack|
  {
    if stack == [] then done
    else
      var h, rest := stack[|stack| - 1], stack[..|stack| - 1];
      if h in done then Walk(vs, rest, done, room)
      else if room == 0 then done
      else Walk(vs, rest + ParentsOf(vs, h), done + {h}, room - 1)
  }

  /** The parents `parent_closure` pushes: both, equal or not. */
  function BothParentsOf(vs: Vertices, h: TxHash): seq<TxHash> {
    if h !in vs then []
    else (if vs[h].parent1 != NULL_PARENT then [vs[h].parent1] else [])
         + (if vs[h].parent2 != NULL_PARENT then [vs[h].parent2] else [])
  }

  /** The walk of `parent_closure`: the vertex that exhausts `room` is still reported. */
  function ClosureWalk(vs: Vertices, stack: seq<TxHash>, done: set<TxHash>, room: nat): set<TxHash>
    decreases room, |stack|
  {
    if stack == [] then done
    else
      var h, rest := stack[|stack| - 1], stack[..|stack| - 1];
      if h in done then ClosureWalk(vs, rest, done, room)
      else if room == 0 then done + {h}
      else ClosureWalk(vs, rest + BothParentsOf(vs, h), done + {h}, room - 1)
  }

  function ParentClosureOf(vs: Vertices, id: TxHash): set<TxHash> {
    ClosureWalk(vs, [id], {}, ANCESTOR_WALK_BOUND)
  }

  /** The vertices whose weight `increment_ancestor_weights` raises for a new `tx`. */
  function Bumped(vs: Vertices, tx: DagTransaction): set<TxHash> {
    Walk(vs, Parents(tx), {}, ANCESTOR_WALK_BOUND)
  }

  function Raise(weights: map<TxHash, nat>, s: set<TxHash>): map<TxHash, nat> {
    map h | h in weights :: if h in s then SatAdd(weights[h], 1) else weights[h]
  }

  function KidsOf(children: map<TxHash, set<TxHash>>, h: TxHash): set<TxHash> {
    if h in children then children[h] else {}
  }

  function NoteChild(g: Graph, parent: TxHash, child: TxHash): Graph {
    if parent == NULL_PARENT then g
    else g.(children := g.children[parent := KidsOf(g.children, parent) + {child}], tips := g.tips - {parent})
  }

  /** Vertices, order, own weight, child entry and tip, before the parents are told. */
  function Place(g: Graph, tx: DagTransaction): Graph {
    Graph(g.vertices[tx.id := tx], g.children[tx.id := KidsOf(g.children, tx.id)], g.tips + {tx.id},
          g.weights[tx.id := 1], g.order + [tx.id], g.genesis)
  }

  function Link(g: Graph, tx: DagTransaction): Graph {
    var once := NoteChild(g, tx.parent1, tx.id);
    if tx.parent2 != tx.parent1 then NoteChild(once, tx.parent2, tx.id) else once
  }

  function Insert(g: Graph, tx: DagTransaction): Graph {
    var linked := Link(Place(g, tx), tx);
    if tx.IsGenesis() then linked.(genesis := tx.id)
    else linked.(weights := Raise(linked.weights, Bumped(linked.vertices, tx)))
  }

  /** The stored bodies asked for, among the first n of the attach order
      (`transactions_for_in_order`). */
  function BodiesInOrder(g: Graph, want: set<TxHash>, n: nat): seq<DagTransaction>
    requires n <= |g.order|
  {
    if n == 0 then []
    else
      var p, id := BodiesInOrder(g, want, n - 1), g.order[n - 1];
      if id in want && id in g.vertices then p + [g.vertices[id]] else p
  }
}
