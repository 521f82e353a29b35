/** Exactly when a rebuild (src/dag/engine.rs) overflows: nothing on the insert path checks
    amounts, so the first addition to do so is the one in the replay. */
module Overflows {
  import opened Basics
  import opened Economics
  import opened Transactions
  import opened Ledgers
  import opened Graphs
  import opened Building
  import opened History
  import opened Dags
  import opened Settlement
  import opened Steps

  /** The replay reaches its i-th vertex with the right nonce and a cost beyond 64 bits. */
  ghost predicate Breaks(f: map<Address, nat>, vs: Vertices, order: seq<TxHash>, losers: set<TxHash>, i: nat)
    requires i < |order|
  {
    var r := Replay(vs, order, losers, Baseline(f), i);
    && !r.failed && !Skipped(vs, losers, order[i])
    && vs[order[i]].nonce == At(r.ledger.nonces, vs[order[i]].sender) && vs[order[i]].Cost() > U64_MAX
  }

  /** Stored user vertices pay the fixed fee, whatever their amounts. */
  ghost predicate Charged(vs: Vertices, order: seq<TxHash>) {
    forall i :: 0 <= i < |order| ==> order[i] in vs && (i > 0 ==> vs[order[i]].fee == FIXED_TRANSACTION_FEE)
  }

  lemma GrownCharged(g: Graph)
    requires Grown(g)
    ensures Charged(g.vertices, g.order) && Lined(g.vertices, g.order)
  {
    GrownLined(g);
    forall i | 0 <= i < |g.order|
      ensures g.order[i] in g.vertices && (i > 0 ==> g.vertices[g.order[i]].fee == FIXED_TRANSACTION_FEE)
    {
      StoredFee(g, i);
      assert LinedAt(g.vertices, g.order, i);
    }
  }

  /** A replay that no vertex breaks never fails. */
  lemma {:induction false} ReplayHolds(f: map<Address, nat>, vs: Vertices, order: seq<TxHash>,
                                       losers: set<TxHash>, n: nat)
    requires Lined(vs, order) && Charged(vs, order) && Room(f, |order|) && n <= |order|
    requires forall i :: 0 <= i < n ==> !Breaks(f, vs, order, losers, i)
    ensures Replaying(f, vs, order, losers, Replay(vs, order, losers, Baseline(f), n), n)
  {
    hide Lined, Charged, Room, Replaying, ReplayOne;
    if n == 0 {
      StartsReplaying(f, vs, order, losers);
    } else {
      ReplayHolds(f, vs, order, losers, n - 1);
      assert !Breaks(f, vs, order, losers, n - 1);
      HoldsOn(f, vs, order, losers, Replay(vs, order, losers, Baseline(f), n - 1), n - 1);
    }
  }

  lemma StartsReplaying(f: map<Address, nat>, vs: Vertices, order: seq<TxHash>, losers: set<TxHash>)
    ensures Replaying(f, vs, order, losers, Replay(vs, order, losers, Baseline(f), 0), 0)
  {
    ReplayStart(f);
  }

  lemma HoldsOn(f: map<Address, nat>, vs: Vertices, order: seq<TxHash>, losers: set<TxHash>, r: Replayed, n: nat)
    requires n < |order| && Replaying(f, vs, order, losers, r, n) && Room(f, |order|) && Lined(vs, order)
    requires Charged(vs, order)
    requires r == Replay(vs, order, losers, Baseline(f), n) && !Breaks(f, vs, order, losers, n)
    ensures Replaying(f, vs, order, losers, ReplayOne(vs, losers, r, order[n]), n + 1)
  {
    assert order[n] in vs;
    hide Replay, Breaks, Replaying, ReplayOne, Charged, Lined;
    if vs[order[n]].Cost() <= U64_MAX {
      FeePayable(vs, order, n);
      ReplayStep(f, vs, order, losers, r, n);
    } else if Skipped(vs, losers, order[n]) {
      SkipsOn(f, vs, order, losers, r, n);
    } else {
      NotDue(f, vs, order, losers, r, n);
      LosesOn(f, vs, order, losers, r, n);
    }
  }

  lemma FeePayable(vs: Vertices, order: seq<TxHash>, n: nat)
    requires n < |order| && Charged(vs, order) && order[n] in vs && vs[order[n]].Cost() <= U64_MAX
    ensures PayableAt(vs, order, n)
  {}

  /** A vertex that costs too much and does not break the replay is refused by its nonce. */
  lemma NotDue(f: map<Address, nat>, vs: Vertices, order: seq<TxHash>, losers: set<TxHash>, r: Replayed, n: nat)
    requires n < |order| && order[n] in vs && vs[order[n]].Cost() > U64_MAX && !Skipped(vs, losers, order[n])
    requires r == Replay(vs, order, losers, Baseline(f), n) && !Breaks(f, vs, order, losers, n)
    requires Replaying(f, vs, order, losers, r, n)
    ensures ReplayOne(vs, losers, r, order[n]) == r.(extra := r.extra + [order[n]])
  {
    hide Replay, ApplyEffects;
    TooDear(r.ledger, vs[order[n]]);
  }

  lemma SkipsOn(f: map<Address, nat>, vs: Vertices, order: seq<TxHash>, losers: set<TxHash>, r: Replayed, n: nat)
    requires n < |order| && Replaying(f, vs, order, losers, r, n) && Lined(vs, order) && Skipped(vs, losers, order[n])
    ensures Replaying(f, vs, order, losers, ReplayOne(vs, losers, r, order[n]), n + 1)
  {
    hide ApplyEffects;
    ReplayNext(order, r, n);
    assert Skipped(vs, losers + ToSet(r.extra), order[n]);
  }

  /** With the wrong nonce an oversized cost is not even added up. */
  lemma TooDear(l: Ledger, tx: DagTransaction)
    ensures tx.nonce != At(l.nonces, tx.sender) ==> ApplyEffects(l, tx) == (l, Err(DoubleSpend(tx.nonce)))
    ensures tx.nonce == At(l.nonces, tx.sender) && tx.Cost() > U64_MAX ==>
      ApplyEffects(l, tx) == (l, Err(DagError.Overflow))
  {}

  lemma LosesOn(f: map<Address, nat>, vs: Vertices, order: seq<TxHash>, losers: set<TxHash>, r: Replayed, n: nat)
    requires n < |order| && Replaying(f, vs, order, losers, r, n) && Lined(vs, order) && !Skipped(vs, losers, order[n])
    ensures Replaying(f, vs, order, losers, r.(extra := r.extra + [order[n]]), n + 1)
  {
    hide ReplayExplained;
    ReplayNext(order, r, n);
    ReplayLoses(vs, order, losers, r, n);
  }

  lemma {:induction false} FailedStays(vs: Vertices, order: seq<TxHash>, losers: set<TxHash>, start: Ledger,
                                       i: nat, n: nat)
    requires i <= n <= |order| && Replay(vs, order, losers, start, i).failed
    ensures Replay(vs, order, losers, start, n) == Replay(vs, order, losers, start, i)
    decreases n
  {
    hide ApplyEffects;
    if i < n { FailedStays(vs, order, losers, start, i, n - 1); }
  }

  lemma BreakFails(f: map<Address, nat>, vs: Vertices, order: seq<TxHash>, losers: set<TxHash>, i: nat)
    requires i < |order| && Breaks(f, vs, order, losers, i)
    ensures Replay(vs, order, losers, Baseline(f), |order|).failed
  {
    hide ApplyEffects;
    TooDear(Replay(vs, order, losers, Baseline(f), i).ledger, vs[order[i]]);
    FailedStays(vs, order, losers, Baseline(f), i + 1, |order|);
  }

  /** With room for faucet, cap and relay credits a rebuild succeeds if and only if the replay
      never reaches, with its nonce due, a vertex whose amount plus fee does not fit 64 bits. */
  lemma OverflowExact(d: Dag)
    requires Grown(d.graph) && RoomFor(d, 0)
    ensures var vs, order, losers := d.graph.vertices, d.graph.order, Losers(d.graph.vertices, d.graph.weights);
      Rebuild(d).1 == Ok <==> forall i :: 0 <= i < |order| ==> !Breaks(d.faucet, vs, order, losers, i)
  {
    hide Grown, Losers, Breaks, Replay, Lined, Charged;
    var vs, order, losers := d.graph.vertices, d.graph.order, Losers(d.graph.vertices, d.graph.weights);
    GrownCharged(d.graph);
    if i :| 0 <= i < |order| && Breaks(d.faucet, vs, order, losers, i) {
      BreakFails(d.faucet, vs, order, losers, i);
    } else {
      ReplayHolds(d.faucet, vs, order, losers, |order|);
    }
  }

  /** What an overflow leaves behind: graph, faucet and conflicts as they were, and the ledger of
      what the replay had applied before it reached an oversized vertex with its nonce due. */
  lemma OverflowLeaves(d: Dag) returns (k: nat, skip: set<TxHash>)
    requires Grown(d.graph) && RoomFor(d, 0) && Rebuild(d).1 != Ok
    ensures k < |d.graph.order| && d.graph.order[k] in d.graph.vertices
    ensures Rebuild(d) == (d.(ledger := Rebuild(d).0.ledger), Err(DagError.Overflow))
    ensures var h, tx := Applied(d.graph.vertices, d.graph.order, skip, k), d.graph.vertices[d.graph.order[k]];
      && Explained(Rebuild(d).0.ledger, d.faucet, h, map[])
      && tx.nonce == Count(h, tx.sender) && tx.amount + tx.fee > U64_MAX
  {
    hide Losers, Grown, Breaks, ApplyEffects, Lined, Charged, ReplayOne, Sound, InNonceOrder, Net, CreditNet;
    var vs, order, losers := d.graph.vertices, d.graph.order, Losers(d.graph.vertices, d.graph.weights);
    OverflowExact(d);
    k := FirstBreak(d.faucet, vs, order, losers);
    GrownCharged(d.graph);
    ReplayHolds(d.faucet, vs, order, losers, k);
    var r := Replay(vs, order, losers, Baseline(d.faucet), k);
    skip := losers + ToSet(r.extra);
    BreaksAt(d.faucet, vs, order, losers, k);
    FailedStays(vs, order, losers, Baseline(d.faucet), k + 1, |order|);
  }

  lemma FirstBreak(f: map<Address, nat>, vs: Vertices, order: seq<TxHash>, losers: set<TxHash>) returns (k: nat)
    requires exists i :: 0 <= i < |order| && Breaks(f, vs, order, losers, i)
    ensures k < |order| && Breaks(f, vs, order, losers, k)
    ensures forall i :: 0 <= i < k ==> !Breaks(f, vs, order, losers, i)
  {
    hide Breaks;
    k := 0;
    while !Breaks(f, vs, order, losers, k)
      invariant k < |order| && forall i :: 0 <= i < k ==> !Breaks(f, vs, order, losers, i)
      decreases |order| - k
    {
      k := k + 1;
    }
  }

  lemma BreaksAt(f: map<Address, nat>, vs: Vertices, order: seq<TxHash>, losers: set<TxHash>, k: nat)
    requires k < |order| && Breaks(f, vs, order, losers, k)
    ensures Replay(vs, order, losers, Baseline(f), k + 1)
         == Replay(vs, order, losers, Baseline(f), k).(failed := true)
    ensures order[k] in vs && vs[order[k]].Cost() > U64_MAX
    ensures vs[order[k]].nonce == At(Replay(vs, order, losers, Baseline(f), k).ledger.nonces, vs[order[k]].sender)
  {
    hide ApplyEffects;
    TooDear(Replay(vs, order, losers, Baseline(f), k).ledger, vs[order[k]]);
  }
}
