/** What a finished sync round is for: the two ledgers.  Nodes that agreed on the vertices they
    shared end as replicas of one vertex map, so a rebuild picks the same winners on both, and
    with equal faucets every agreement result about replicas applies to them. */
module Convergence {
  import opened Basics
  import opened Graphs
  import opened Ancestry
  import opened Building
  import opened Weights
  import opened History
  import opened Dags
  import opened Settlement
  import opened Reconciliation
  import opened Protocol
  import Exchange
  import Replicas
  import Reordering
  import opened SyncRound

  /** Tip closures within the walk bound keep every vertex within it. */
  lemma FitsWithin(g: Graph)
    requires Grown(g) && TipsFit(g)
    ensures WithinBound(g.vertices)
  {
    hide Grown, Closure, ProperAncestors;
    GrownShaped(g);
    forall v | v in g.vertices ensures |ProperAncestors(g.vertices, g.vertices[v])| <= ANCESTOR_WALK_BOUND {
      var i := IndexOf(g, v);
      var t := TipAbove(g, i);
      Acyclic(g, v);
      ClosureUnfold(g.vertices, v);
      Inherits(g.vertices, t, v);
      SubsetSmaller(Closure(g.vertices, v), Closure(g.vertices, t));
      OneLess(Closure(g.vertices, v), ProperAncestors(g.vertices, g.vertices[v]), v);
    }
  }

  /** What lies below a vertex lies below whatever approves it. */
  lemma Inherits(vs: Vertices, t: TxHash, v: TxHash)
    requires Closed(vs) && t in vs && v in Closure(vs, t)
    ensures Closure(vs, v) <= Closure(vs, t)
  {
    hide Closure, Closed;
    ClosureIsClosed(vs, t);
    ClosureLeast(vs, v, Closure(vs, t));
  }

  lemma OneLess(a: set<TxHash>, b: set<TxHash>, v: TxHash)
    requires a == {v} + b && v !in b
    ensures |a| == |b| + 1
  {}

  /** A peer at the end of a round is a replica of the union. */
  lemma EndsAsReplica(d: Dag, a: Graph, c: Graph, e: nat, u: set<TxHash>)
    requires Inv(d, e, u) && Grown(a) && Grown(c) && d.graph.vertices == c.vertices + a.vertices
    requires SameParents(a.vertices, c.vertices) && TipsFit(a) && TipsFit(c) && Room(d.faucet, |a.order| + |c.order|)
    ensures Replicas.Replica(d)
  {
    hide Grown, Settled, AllOffered, TipsFit, WithinBound, SameParents;
    Exchange.UnionFits(d.graph, a, c);
    FitsWithin(d.graph);
    Exchange.UnionSize(d.graph, a, c);
  }

  lemma UnionsEqual(a: Vertices, b: Vertices)
    requires Exchange.Agree(a, b)
    ensures a + b == b + a
  {}

  lemma BecomeTwins(x: Dag, y: Dag)
    requires Replicas.Replica(x) && Replicas.Replica(y) && x.graph.vertices == y.graph.vertices && x.faucet == y.faucet
    ensures Reordering.Twin(x, y)
  {}

  lemma MeetingParts(a: Dag, e: nat, u: set<TxHash>, b: Dag, f: nat, v: set<TxHash>)
    requires Meeting(a, e, u, b, f, v)
    ensures Grown(a.graph) && Grown(b.graph) && TipsFit(a.graph) && TipsFit(b.graph)
    ensures Room(a.faucet, |a.graph.order| + |b.graph.order|) && Room(b.faucet, |b.graph.order| + |a.graph.order|)
    ensures Exchange.Agree(a.graph.vertices, b.graph.vertices) ==>
      SameParents(a.graph.vertices, b.graph.vertices) && SameParents(b.graph.vertices, a.graph.vertices)
  {
    hide Grown, Settled, TipsFit, AllOffered;
  }

  /** After a round between nodes that agreed on the vertices they shared, both store the same
      map with the same weights, so rebuilds pick the same same-nonce losers and winners; with
      equal faucets the two are twins. */
  lemma RoundMakesTwins(a: Dag, e: nat, u: set<TxHash>, b: Dag, f: nat, v: set<TxHash>, moves: seq<Move>, w: World)
    requires Meeting(a, e, u, b, f, v) && Leads(Start(a, b), moves, w) && Finished(w)
    requires Exchange.Agree(a.graph.vertices, b.graph.vertices)
    ensures Replicas.Replica(w.a.dag) && Replicas.Replica(w.b.dag) && w.a.dag.graph.vertices == w.b.dag.graph.vertices
    ensures w.a.dag.graph.weights == w.b.dag.graph.weights
    ensures var losers := Losers(w.a.dag.graph.vertices, w.a.dag.graph.weights);
      var (r, q) := (Rebuild(w.a.dag).0, Rebuild(w.b.dag).0);
      && losers == Losers(w.b.dag.graph.vertices, w.b.dag.graph.weights)
      && losers <= r.conflicts.Keys && losers <= q.conflicts.Keys
      && forall x :: x in losers ==> r.conflicts[x] == q.conflicts[x]
    ensures a.faucet == b.faucet ==> Reordering.Twin(w.a.dag, w.b.dag)
  {
    hide Leads, Inv, TipsFit, Finished, Rebuild, Losers, WinnerOf, Replicas.Replica;
    hide Reordering.Twin, Room, Meeting, Grown;
    MeetingParts(a, e, u, b, f, v);
    hide Exchange.Agree, SameParents;
    RoundConverges(a, e, u, b, f, v, moves, w);
    UnionsEqual(a.graph.vertices, b.graph.vertices);
    var e', u' :| Inv(w.a.dag, e', u');
    var f', v' :| Inv(w.b.dag, f', v');
    EndsAsReplica(w.a.dag, a.graph, b.graph, e', u');
    EndsAsReplica(w.b.dag, b.graph, a.graph, f', v');
    Replicas.SameVerdicts(w.a.dag, w.b.dag);
    if a.faucet == b.faucet { BecomeTwins(w.a.dag, w.b.dag); }
  }
}
