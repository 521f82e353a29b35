/** Whole runs of `KronDAG`: conservation, emission, double-spend safety and graph shape
    after any sequence of credits, attaches, wire accepts, merges and rebuilds. */
module Runs {
  import opened Basics
  import opened Economics
  import opened Transactions
  import opened Ledgers
  import opened Graphs
  import opened Building
  import opened Dags
  import opened Settlement
  import opened Steps

  // ------------------------------------------------------- accept and merge

  /** With room, an offered vertex that passes the checks is always stored, whether it is
      applied or loses a conflict; any other is refused without a trace. */
  lemma AcceptKeeps(d: Dag, b: nat, unsettled: set<TxHash>, tx: DagTransaction)
      returns (b': nat, unsettled': set<TxHash>)
    requires Inv(d, b, unsettled) && Offered(tx) && RoomFor(d, 1)
    ensures Inv(Accept(d, tx).0, b', unsettled') && unsettled' <= unsettled
    ensures Accept(d, tx).0.faucet == d.faucet
    ensures CheckVertex(d.graph.vertices, tx) == Ok ==>
      Accept(d, tx).1 == Stored(true) && Accept(d, tx).0.graph == Insert(d.graph, tx)
    ensures CheckVertex(d.graph.vertices, tx) != Ok ==>
      Accept(d, tx) == (d,
          if tx.id in d.graph.vertices then Stored(false) else Rejected(CheckVertex(d.graph.vertices, tx).error))
  {
    hide Grown, Settled, CheckVertex, Insert, ApplyEffects, Attach, Rebuild, AllOffered;
    b', unsettled' := b, unsettled;
    AttachClean(d, b, unsettled, tx);
    if CheckVertex(d.graph.vertices, tx) != Ok {
      CheckNeverOverflows(d.graph.vertices, tx);
    } else if Attach(d, tx).1 == Ok {
      AttachKeeps(d, b, unsettled, tx);
      InsertExtends(d.graph, tx);
    } else {
      ApplyRefuses(d.ledger, tx);
      var stored := InsertGraphOnly(d, tx).0;
      InsertKeeps(d, b, unsettled, tx);
      InsertExtends(d.graph, tx);
      RebuildSettles(stored);
      b', unsettled' := 0, {};
    }
  }

  function Ids(txs: seq<DagTransaction>): set<TxHash> {
    set i | 0 <= i < |txs| :: txs[i].id
  }

  lemma IdsMore(txs: seq<DagTransaction>, n: nat)
    requires n < |txs|
    ensures Ids(txs[..n + 1]) == Ids(txs[..n]) + {txs[n].id}
  {
    assert txs[..n + 1] == txs[..n] + [txs[n]];
    forall x | x in Ids(txs[..n]) ensures x in Ids(txs[..n + 1]) {
      var i :| 0 <= i < n && txs[..n][i].id == x;
      assert txs[..n + 1][i].id == x;
    }
    assert txs[..n + 1][n].id in Ids(txs[..n + 1]);
  }

  /** The ids `m` stores beyond `d`. */
  ghost function Added(d: Dag, m: Dag): set<TxHash> { m.graph.vertices.Keys - d.graph.vertices.Keys }

  /** Every stored vertex is still stored, unchanged. */
  ghost predicate Kept(vs: Vertices, ws: Vertices) {
    vs.Keys <= ws.Keys && forall h {:trigger ws[h]} :: h in vs ==> ws[h] == vs[h]
  }

  /** The insert loop touches only the graph; the ids it went through are stored unless it
      stopped on an error, and it counts what was new. */
  ghost predicate Looped(d: Dag, m: Dag, r: Merged, ids: set<TxHash>) {
    && m == d.(graph := m.graph)
    && d.graph.vertices.Keys <= m.graph.vertices.Keys <= d.graph.vertices.Keys + ids
    && |d.graph.order| <= |m.graph.order| && m.graph.genesis == d.graph.genesis
    && Kept(d.graph.vertices, m.graph.vertices)
    && (r.Inserted? ==> ids <= m.graph.vertices.Keys && r.count == SatU32(|m.graph.order| - |d.graph.order|))
  }

  /** One pass of the loop body: already stored, newly stored, or an error. */
  ghost predicate Passed(m: Dag, tx: DagTransaction, count: nat, m': Dag, r: Merged) {
    || (tx.id in m.graph.vertices && m' == m && r == Inserted(count))
    || (Extends(m.graph, tx, m'.graph) && m' == m.(graph := m'.graph) && r == Inserted(SatU32(count + 1)))
    || (m' == m && !r.Inserted?)
  }

  lemma MergeOnePasses(m: Dag, tx: DagTransaction, count: nat)
    requires Grown(m.graph) && tx.id != NULL_PARENT
    ensures Passed(m, tx, count, MergeOne(m, tx, count).0, MergeOne(m, tx, count).1)
  {
    hide Insert, Grown;
    if CheckVertex(m.graph.vertices, tx) == Ok { InsertExtends(m.graph, tx); }
  }

  lemma LoopedMore(d: Dag, m: Dag, count: nat, ids: set<TxHash>, tx: DagTransaction, m': Dag, r: Merged)
    requires Looped(d, m, Inserted(count), ids) && Passed(m, tx, count, m', r)
    ensures Looped(d, m', r, ids + {tx.id}) && |m'.graph.order| <= |m.graph.order| + 1
    ensures Added(d, m') == Added(d, m) + if |m'.graph.order| > |m.graph.order| then {tx.id} else {}
    ensures |m'.graph.order| == |m.graph.order| ==> m' == m
  {}

  lemma MergeOneKeeps(m: Dag, b: nat, unsettled: set<TxHash>, tx: DagTransaction, count: nat, m': Dag)
    requires Inv(m, b, unsettled) && Offered(tx) && m' == MergeOne(m, tx, count).0 && m' != m
    ensures Inv(m', b, unsettled + {tx.id})
  {
    assert InsertGraphOnly(m, tx) == (m', Ok);
    InsertKeeps(m, b, unsettled, tx);
  }

  /** The loop invariant of the insert loop. */
  ghost predicate LoopKept(d: Dag, b: nat, unsettled: set<TxHash>, m: Dag, r: Merged, ids: set<TxHash>, n: nat) {
    Inv(m, b, unsettled + Added(d, m)) && Looped(d, m, r, ids) && |m.graph.order| <= |d.graph.order| + n
  }

  lemma {:induction false} MergeLoopKeeps(d: Dag, b: nat, unsettled: set<TxHash>, txs: seq<DagTransaction>, n: nat)
    requires Inv(d, b, unsettled) && n <= |txs| && forall i :: 0 <= i < |txs| ==> Offered(txs[i])
    ensures LoopKept(d, b, unsettled, MergeLoop(d, txs, n).0, MergeLoop(d, txs, n).1, Ids(txs[..n]), n)
  {
    hide MergeOne, LoopKept;
    if n == 0 {
      assert Ids(txs[..0]) == {};
      LoopStart(d, b, unsettled);
    } else {
      MergeLoopKeeps(d, b, unsettled, txs, n - 1);
      IdsMore(txs, n - 1);
      var (m, r) := MergeLoop(d, txs, n - 1);
      if r.Inserted? {
        MergeLoopStep(d, b, unsettled, m, r.count, Ids(txs[..n - 1]), txs[n - 1], n - 1);
      } else {
        LoopStopped(d, b, unsettled, m, r, Ids(txs[..n - 1]), txs[n - 1].id, n - 1);
      }
    }
  }

  lemma LoopStart(d: Dag, b: nat, unsettled: set<TxHash>)
    requires Inv(d, b, unsettled)
    ensures LoopKept(d, b, unsettled, d, Inserted(0), {}, 0)
  {
    assert unsettled + Added(d, d) == unsettled;
  }

  lemma LoopStopped(d: Dag, b: nat, unsettled: set<TxHash>, m: Dag, r: Merged, ids: set<TxHash>, id: TxHash, n: nat)
    requires LoopKept(d, b, unsettled, m, r, ids, n) && !r.Inserted?
    ensures LoopKept(d, b, unsettled, m, r, ids + {id}, n + 1)
  {}

  lemma MergeLoopStep(d: Dag, b: nat, unsettled: set<TxHash>, m: Dag, count: nat, ids: set<TxHash>,
                      tx: DagTransaction, n: nat)
    requires LoopKept(d, b, unsettled, m, Inserted(count), ids, n) && Offered(tx)
    ensures LoopKept(d, b, unsettled, MergeOne(m, tx, count).0, MergeOne(m, tx, count).1, ids + {tx.id}, n + 1)
  {
    hide MergeOne, Grown, Settled;
    var (m', r) := MergeOne(m, tx, count);
    MergeOnePasses(m, tx, count);
    LoopedMore(d, m, count, ids, tx, m', r);
    if m' != m {
      MergeOneKeeps(m, b, unsettled + Added(d, m), tx, count, m');
      assert unsettled + Added(d, m') == unsettled + Added(d, m) + {tx.id};
    }
  }

  // ------------------------------------------------------------------- runs

  datatype Step =
    | CreditStep(account: Address, amount: nat)
    | AttachStep(tx: DagTransaction)
    | AcceptStep(tx: DagTransaction)
    | MergeStep(batch: seq<DagTransaction>)
    | ResolveStep

  ghost function Exec(d: Dag, s: Step): Dag {
    match s
    case CreditStep(a, amount) => CreditAccount(d, a, amount)
    case AttachStep(tx) => Attach(d, tx).0
    case AcceptStep(tx) => Accept(d, tx).0
    case MergeStep(batch) => MergeOrdered(d, batch).0
    case ResolveStep => Rebuild(d).0
  }

  /** Offered vertices are well-typed for the ledger and there is room for the step. */
  ghost predicate Allowed(d: Dag, s: Step) {
    match s
    case CreditStep(_, amount) => Sum(d.faucet) + amount + HARD_CAP <= U64_MAX
    case AttachStep(tx) => Offered(tx) && RoomFor(d, 1)
    case AcceptStep(tx) => Offered(tx) && RoomFor(d, 1)
    case MergeStep(batch) => RoomFor(d, |batch|) && forall i :: 0 <= i < |batch| ==> Offered(batch[i])
    case ResolveStep => RoomFor(d, 0)
  }

  lemma StepKeeps(d: Dag, b: nat, unsettled: set<TxHash>, s: Step) returns (b': nat, unsettled': set<TxHash>)
    requires Inv(d, b, unsettled) && Allowed(d, s)
    ensures Inv(Exec(d, s), b', unsettled')
    ensures !s.MergeStep? ==> unsettled' <= unsettled
  {
    b', unsettled' := b, unsettled;
    match s
    case CreditStep(a, amount) =>
      CreditKeeps(d, b, unsettled, a, amount);
    case AttachStep(tx) =>
      AttachClean(d, b, unsettled, tx);
      if Attach(d, tx).1 == Ok { AttachKeeps(d, b, unsettled, tx); }
    case AcceptStep(tx) =>
      b', unsettled' := AcceptKeeps(d, b, unsettled, tx);
    case MergeStep(batch) =>
      b', unsettled' := MergeKeeps(d, b, unsettled, batch);
    case ResolveStep =>
      RebuildSettles(d);
      b', unsettled' := 0, {};
  }

  /** No step changes the genesis or a stored vertex, or takes one away. */
  lemma StepGrows(d: Dag, b: nat, unsettled: set<TxHash>, s: Step)
    requires Inv(d, b, unsettled) && Allowed(d, s)
    ensures Exec(d, s).graph.genesis == d.graph.genesis && Kept(d.graph.vertices, Exec(d, s).graph.vertices)
  {
    hide Inv, Grown, Settled, Insert, Attach, Accept, Rebuild, MergeOrdered, CheckVertex, ApplyEffects;
    match s
    case CreditStep(a, amount) =>
    case AttachStep(tx) =>
      AttachClean(d, b, unsettled, tx);
      if CheckVertex(d.graph.vertices, tx) == Ok { InsertMore(d, b, unsettled, tx); }
    case AcceptStep(tx) =>
      var b', unsettled' := AcceptKeeps(d, b, unsettled, tx);
      if CheckVertex(d.graph.vertices, tx) == Ok { InsertMore(d, b, unsettled, tx); }
    case MergeStep(batch) =>
      var b', unsettled' := MergeKeeps(d, b, unsettled, batch);
    case ResolveStep =>
      RebuildSameGraph(d);
  }

  lemma RebuildSameGraph(d: Dag)
    ensures Rebuild(d).0.graph == d.graph
  {}

  lemma InsertMore(d: Dag, b: nat, unsettled: set<TxHash>, tx: DagTransaction)
    requires Inv(d, b, unsettled) && Offered(tx) && CheckVertex(d.graph.vertices, tx) == Ok
    ensures Extends(d.graph, tx, Insert(d.graph, tx))
  {
    hide Settled, Grown, Insert;
    InsertExtends(d.graph, tx);
  }

  /** A merge that succeeds with something new settles everything; one that fails half way
      leaves exactly the vertices it stored unsettled. */
  lemma MergeKeeps(d: Dag, b: nat, unsettled: set<TxHash>, batch: seq<DagTransaction>)
      returns (b': nat, unsettled': set<TxHash>)
    requires Inv(d, b, unsettled) && Allowed(d, MergeStep(batch))
    ensures var (m, r) := MergeOrdered(d, batch);
      && Inv(m, b', unsettled') && m.faucet == d.faucet
      && Looped(d.(ledger := m.ledger, conflicts := m.conflicts), m, r, Ids(batch))
      && (r.Inserted? ==> if r.count > 0 then unsettled' == {} && b' == 0 else m == d)
      && (!r.Inserted? ==> unsettled' == unsettled + Added(d, m) && m.conflicts == d.conflicts && m.ledger == d.ledger)
  {
    hide Grown, Settled, MergeLoop, ReplayAll;
    MergeLoopKeeps(d, b, unsettled, batch, |batch|);
    assert batch[..|batch|] == batch;
    var (m, r) := MergeLoop(d, batch, |batch|);
    b', unsettled' := b, unsettled + Added(d, m);
    if r.Inserted? && r.count > 0 {
      RebuildSettles(m);
      b', unsettled' := 0, {};
    }
    if r == Inserted(0) { MergeIdle(d, batch, |batch|); }
  }

  lemma {:induction false} MergeIdle(d: Dag, batch: seq<DagTransaction>, n: nat)
    requires n <= |batch| && MergeLoop(d, batch, n).1 == Inserted(0)
    ensures MergeLoop(d, batch, n).0 == d
  {
    if n > 0 { MergeIdle(d, batch, n - 1); }
  }
}
