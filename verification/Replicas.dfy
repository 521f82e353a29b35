/** Two replicas with the same vertices and faucet but different attach orders. */
module Replicas {
  import opened Basics
  import opened Economics
  import opened Transactions
  import opened Ledgers
  import opened Graphs
  import opened Building
  import opened Weights
  import opened History
  import opened Dags
  import opened Settlement
  import opened Steps

  // ------------------------------------------------ sums over permutations

  ghost function SumOf(h: seq<DagTransaction>, f: DagTransaction -> int): int {
    if h == [] then 0 else SumOf(h[..|h| - 1], f) + f(h[|h| - 1])
  }

  lemma {:induction false} SumOfWithout(h: seq<DagTransaction>, f: DagTransaction -> int, j: nat)
    requires j < |h|
    ensures SumOf(h, f) == SumOf(h[..j] + h[j + 1..], f) + f(h[j])
  {
    var n := |h| - 1;
    if j < n {
      var p := h[..n];
      SumOfWithout(p, f, j);
      var rest := h[..j] + h[j + 1..];
      assert rest[..|rest| - 1] == p[..j] + p[j + 1..] && rest[|rest| - 1] == h[n];
    } else {
      assert h[..j] + h[j + 1..] == h[..n];
    }
  }

  lemma TakeOut<T>(h: seq<T>, x: T) returns (j: nat)
    requires x in multiset(h)
    ensures j < |h| && h[j] == x && multiset(h[..j] + h[j + 1..]) == multiset(h) - multiset{x}
  {
    j :| 0 <= j < |h| && h[j] == x;
    assert h == h[..j] + [x] + h[j + 1..];
  }

  /** A sum does not depend on the order of its terms. */
  lemma {:induction false} SumOfPermuted(g: seq<DagTransaction>, h: seq<DagTransaction>, f: DagTransaction -> int)
    requires multiset(g) == multiset(h)
    ensures SumOf(g, f) == SumOf(h, f)
    decreases |g|
  {
    if g == [] {
      assert |multiset(h)| == 0;
    } else {
      var last := g[|g| - 1];
      assert last in multiset(g);
      var i := TakeOut(g, last);
      var j := TakeOut(h, last);
      SumOfWithout(g, f, i);
      SumOfWithout(h, f, j);
      SumOfPermuted(g[..i] + g[i + 1..], h[..j] + h[j + 1..], f);
    }
  }

  ghost function SpendsFrom(s: Address): DagTransaction -> int {
    (tx: DagTransaction) => if tx.sender == s then 1 else 0
  }

  lemma {:induction false} CountAsSum(h: seq<DagTransaction>, s: Address)
    ensures Count(h, s) == SumOf(h, SpendsFrom(s))
  {
    if h != [] { CountAsSum(h[..|h| - 1], s); }
  }

  /** Within the first halving era every vertex mints the same subsidy. */
  lemma FirstEraSubsidy(k: nat)
    requires k < TX_HALVING_INTERVAL
    ensures SubsidyAt(k) == INITIAL_TX_SUBSIDY
  {
    EmissionSchedule(k);
    ShiftedSubsidies();
  }

  /** Each vertex earns the same subsidy in both orders. */
  ghost predicate EarnAlike(g: seq<DagTransaction>, h: seq<DagTransaction>) {
    forall i, j :: 0 <= i < |g| && 0 <= j < |h| && g[i] == h[j] ==> SubsidyAt(i) == SubsidyAt(j)
  }

  /** Up to the first halving every order pays alike. */
  lemma FirstEraAlike(g: seq<DagTransaction>, h: seq<DagTransaction>)
    requires |g| <= TX_HALVING_INTERVAL && |h| <= TX_HALVING_INTERVAL
    ensures EarnAlike(g, h)
  {
    hide SubsidyAt;
    forall i, j | 0 <= i < |g| && 0 <= j < |h| && g[i] == h[j] ensures SubsidyAt(i) == SubsidyAt(j) {
      FirstEraSubsidy(i);
      FirstEraSubsidy(j);
    }
  }

  /** A position of `tx` in `g`. */
  ghost function SlotOf(g: seq<DagTransaction>, tx: DagTransaction): (i: nat)
    ensures tx in g ==> i < |g| && g[i] == tx
  {
    if tx in g then var i :| 0 <= i < |g| && g[i] == tx; i else 0
  }

  ghost function DeltaIn(g: seq<DagTransaction>, a: Address): DagTransaction -> int {
    (tx: DagTransaction) => Delta(tx, SlotOf(g, tx), a)
  }

  ghost function CreditIn(g: seq<DagTransaction>, a: Address): DagTransaction -> int {
    (tx: DagTransaction) => RelayDelta(tx, SlotOf(g, tx), a)
  }

  /** What a vertex moves depends on its place only through the subsidy. */
  lemma DeltaSame(tx: DagTransaction, j: nat, k: nat, a: Address)
    requires SubsidyAt(j) == SubsidyAt(k)
    ensures Delta(tx, j, a) == Delta(tx, k, a) && RelayDelta(tx, j, a) == RelayDelta(tx, k, a)
  {
    hide SubsidyAt, RelayShare, MinerPaid;
  }

  lemma {:induction false} NetAsSum(g: seq<DagTransaction>, h: seq<DagTransaction>, a: Address)
    requires forall j :: 0 <= j < |h| ==> SubsidyAt(SlotOf(g, h[j])) == SubsidyAt(j)
    ensures Net(h, a) == SumOf(h, DeltaIn(g, a)) && CreditNet(h, a) == SumOf(h, CreditIn(g, a))
  {
    hide SubsidyAt, Delta, RelayDelta, SlotOf;
    if h != [] {
      NetAsSum(g, h[..|h| - 1], a);
      DeltaSame(h[|h| - 1], SlotOf(g, h[|h| - 1]), |h| - 1, a);
    }
  }

  /** Vertices that earn alike in two orders leave every balance and relay credit alike. */
  lemma NetPermuted(g: seq<DagTransaction>, h: seq<DagTransaction>, a: Address)
    requires NoDup(g) && multiset(g) == multiset(h) && EarnAlike(g, h)
    ensures Net(g, a) == Net(h, a) && CreditNet(g, a) == CreditNet(h, a)
  {
    hide SubsidyAt, Net, CreditNet;
    forall j | 0 <= j < |h| ensures SubsidyAt(SlotOf(g, h[j])) == SubsidyAt(j) {
      assert h[j] in multiset(g);
    }
    NetAsSum(g, g, a);
    NetAsSum(g, h, a);
    SumOfPermuted(g, h, DeltaIn(g, a));
    SumOfPermuted(g, h, CreditIn(g, a));
  }

  /** What `a` earns from the mint of `tx` as the k-th confirmed vertex: miner and relay share. */
  ghost function Earning(tx: DagTransaction, k: nat, a: Address): nat {
    (if a == tx.sender then MinerPaid(Pool(tx, k), tx.ProvenRelayNodes()) else 0) + RelayDelta(tx, k, a)
  }

  ghost function Earned(h: seq<DagTransaction>, a: Address): nat {
    if h == [] then 0 else Earned(h[..|h| - 1], a) + Earning(h[|h| - 1], |h| - 1, a)
  }

  /** What `tx` moves for `a` besides, wherever it is applied. */
  ghost function Moves(a: Address): DagTransaction -> int {
    (tx: DagTransaction) =>
      (if a == tx.recipient then tx.amount as int else 0) - (if a == tx.sender then tx.Cost() else 0)
  }

  lemma {:induction false} NetSplits(h: seq<DagTransaction>, a: Address)
    ensures Net(h, a) == SumOf(h, Moves(a)) + Earned(h, a)
  {
    hide RelayDelta, MinerPaid, Pool;
    if h != [] { NetSplits(h[..|h| - 1], a); }
  }

  // ------------------------------------------------- same applied vertices

  /** The vertices a ledger with these conflicts has applied, in no order. */
  ghost function AppliedSet(vs: Vertices, skip: set<TxHash>): set<DagTransaction> {
    set id | id in vs && !Skipped(vs, skip, id) :: vs[id]
  }

  lemma AppliedElements(g: Graph, skip: set<TxHash>)
    requires Grown(g)
    ensures NoDup(AppliedAll(g, skip)) && ToSet(AppliedAll(g, skip)) == AppliedSet(g.vertices, skip)
  {
    hide Grown;
    GrownLined(g);
    var vs, order, h := g.vertices, g.order, AppliedAll(g, skip);
    AppliedDistinct(vs, order, skip, |order|);
    forall tx | tx in AppliedSet(vs, skip) ensures tx in ToSet(h) {
      var id :| id in vs && !Skipped(vs, skip, id) && vs[id] == tx;
      assert id in ToSet(order);
      var k :| 0 <= k < |order| && order[k] == id;
      AppliedHas(vs, order, skip, |order|, k);
    }
    forall tx | tx in ToSet(h) ensures tx in AppliedSet(vs, skip) {
      var i :| 0 <= i < |h| && h[i] == tx;
      var k := AppliedFrom(vs, order, skip, |order|, i);
    }
  }

  lemma {:induction false} AppliedDistinct(vs: Vertices, order: seq<TxHash>, skip: set<TxHash>, n: nat)
    requires Lined(vs, order) && n <= |order|
    ensures NoDup(Applied(vs, order, skip, n))
  {
    if n > 0 {
      AppliedDistinct(vs, order, skip, n - 1);
      var p := Applied(vs, order, skip, n - 1);
      forall i | 0 <= i < |p| && !Skipped(vs, skip, order[n - 1]) ensures p[i] != vs[order[n - 1]] {
        var k := AppliedFrom(vs, order, skip, n - 1, i);
        assert LinedAt(vs, order, k) && LinedAt(vs, order, n - 1);
      }
    }
  }

  lemma {:induction false} SameElements<T>(a: seq<T>, b: seq<T>)
    requires NoDup(a) && NoDup(b) && ToSet(a) == ToSet(b)
    ensures multiset(a) == multiset(b)
  {
    forall x ensures multiset(a)[x] == multiset(b)[x] {
      OnceEach(a, x);
      OnceEach(b, x);
      assert x in a <==> x in ToSet(a);
      assert x in b <==> x in ToSet(b);
    }
  }

  lemma {:induction false} OnceEach<T>(a: seq<T>, x: T)
    requires NoDup(a)
    ensures multiset(a)[x] == if x in a then 1 else 0
  {
    if a != [] {
      var p, last := a[..|a| - 1], a[|a| - 1];
      assert a == p + [last];
      OnceEach(p, x);
    }
  }

  // ---------------------------------------------------------------- theorem

  ghost predicate Replica(d: Dag) {
    Stocked(d) && RoomFor(d, 0) && |d.graph.order| < U64_MAX && WithinBound(d.graph.vertices)
  }

  /** Replicas of one vertex set have the same weights. */
  lemma SameWeights(d: Dag, e: Dag)
    requires Replica(d) && Replica(e) && d.graph.vertices == e.graph.vertices
    ensures d.graph.weights == e.graph.weights
  {
    hide Grown, AllOffered, WithinBound, Exact;
    WeightsExact(d.graph);
    WeightsExact(e.graph);
    ExactUnique(d.graph, e.graph);
  }

  lemma ExactUnique(g: Graph, h: Graph)
    requires Exact(g) && Exact(h) && g.vertices == h.vertices
    ensures g.weights == h.weights
  {
    hide Approvers;
    forall v | v in g.vertices ensures g.weights[v] == h.weights[v] {}
  }

  /** The same-nonce verdicts of a rebuild: every loser maps to its winner. */
  lemma RebuildVerdicts(d: Dag)
    requires Rebuild(d).1 == Ok
    ensures var losers := Losers(d.graph.vertices, d.graph.weights);
      && losers <= Rebuild(d).0.conflicts.Keys
      && forall a :: a in losers ==> Rebuild(d).0.conflicts[a] == WinnerOf(d.graph.vertices, d.graph.weights, a)
  {
    hide ReplayAll, Losers;
  }

  /** Within the walk bound, the rival a rebuild keeps is the one most vertices approve, the
      larger id on a tie. */
  lemma MostApprovedWins(d: Dag, a: TxHash, c: TxHash)
    requires Stocked(d) && RoomFor(d, 0) && |d.graph.order| < U64_MAX && WithinBound(d.graph.vertices)
    requires a in Losers(d.graph.vertices, d.graph.weights)
    ensures Rebuild(d).1 == Ok && a in Rebuild(d).0.conflicts
    ensures var vs, w := d.graph.vertices, Rebuild(d).0.conflicts[a];
      && Rivals(vs, a, w)
      && (Rivals(vs, a, c) && c != w ==>
            |Approvers(vs, c)| < |Approvers(vs, w)| || (|Approvers(vs, c)| == |Approvers(vs, w)| && c < w))
  {
    hide Grown, Rebuild, Losers, Approvers, WithinBound;
    RebuildSettles(d);
    RebuildVerdicts(d);
    WeightsExact(d.graph);
    var vs, weights := d.graph.vertices, d.graph.weights;
    var w := WinnerOf(vs, weights, a);
    if Rivals(vs, a, c) && c != w { WinnerOutranks(vs, weights, a, w, c); }
  }

  lemma WinnerOutranks(vs: Vertices, weights: map<TxHash, nat>, a: TxHash, w: TxHash, c: TxHash)
    requires Wins(vs, weights, a, w) && Rivals(vs, a, c) && c != w
    ensures Outranks(weights, w, c)
  {
    assert Rivals(vs, w, c);
    assert !LosesTo(vs, weights, w, c);
  }

  /** Replicas of one vertex set keep the same rival of every same-nonce group. */
  lemma SameVerdicts(d: Dag, e: Dag)
    requires Replica(d) && Replica(e) && d.graph.vertices == e.graph.vertices
    ensures Rebuild(d).1 == Ok && Rebuild(e).1 == Ok && d.graph.weights == e.graph.weights
    ensures var losers := Losers(d.graph.vertices, d.graph.weights);
      var (r, q) := (Rebuild(d).0, Rebuild(e).0);
      && losers == Losers(e.graph.vertices, e.graph.weights)
      && losers <= r.conflicts.Keys && losers <= q.conflicts.Keys
      && forall a :: a in losers ==> r.conflicts[a] == q.conflicts[a]
  {
    hide Rebuild, Losers, Grown, WithinBound, WinnerOf;
    SameWeights(d, e);
    RebuildSettles(d);
    RebuildSettles(e);
    RebuildVerdicts(d);
    RebuildVerdicts(e);
  }

  /** Both ledgers, account by account. */
  ghost predicate SameAccounts(r: Dag, q: Dag) {
    forall a :: At(r.ledger.balances, a) == At(q.ledger.balances, a) && At(r.ledger.credits,
                                                                           a) == At(q.ledger.credits, a)
  }

  ghost predicate SameNonces(r: Dag, q: Dag) {
    forall s :: At(r.ledger.nonces, s) == At(q.ledger.nonces, s)
  }

  /** Replicas pick the same same-nonce losers and winners; when their replays also drop the
      same overlapping spends they agree on every nonce, the supply and the count, and, if each
      applied vertex earns the same subsidy in both orders, on every balance and relay credit. */
  lemma ReplicasAgree(d: Dag, e: Dag)
    requires Replica(d) && Replica(e) && d.graph.vertices == e.graph.vertices && d.faucet == e.faucet
    ensures Rebuild(d).1 == Ok && Rebuild(e).1 == Ok
    ensures var losers := Losers(d.graph.vertices, d.graph.weights);
      var (r, q) := (Rebuild(d).0, Rebuild(e).0);
      && losers == Losers(e.graph.vertices, e.graph.weights)
      && losers <= r.conflicts.Keys && losers <= q.conflicts.Keys
      && (forall a :: a in losers ==> r.conflicts[a] == q.conflicts[a])
      && (r.conflicts.Keys == q.conflicts.Keys ==>
            && r.ledger.supply == q.ledger.supply && r.ledger.txCount == q.ledger.txCount && SameNonces(r, q)
            && (EarnAlike(AppliedAll(r.graph, r.conflicts.Keys), AppliedAll(q.graph, q.conflicts.Keys)) ==>
                  SameAccounts(r, q)))
  {
    hide Rebuild, Losers, Grown, WithinBound, WinnerOf, EarnAlike, SameAccounts, SameNonces, AppliedAll;
    SameVerdicts(d, e);
    RebuildSettles(d);
    RebuildSettles(e);
    if Rebuild(d).0.conflicts.Keys == Rebuild(e).0.conflicts.Keys {
      SameApplied(Rebuild(d).0, Rebuild(e).0);
    }
  }

  /** Replicas that applied the same vertices agree on a balance if and only if mints paid that
      account the same in total: transfers and fees do not depend on the order. */
  lemma BalancesExact(d: Dag, e: Dag, a: Address)
    requires Replica(d) && Replica(e) && d.graph.vertices == e.graph.vertices && d.faucet == e.faucet
    requires Rebuild(d).0.conflicts.Keys == Rebuild(e).0.conflicts.Keys
    ensures var (r, q) := (Rebuild(d).0, Rebuild(e).0);
      At(r.ledger.balances, a) == At(q.ledger.balances, a) <==>
        Earned(AppliedAll(r.graph, r.conflicts.Keys), a) == Earned(AppliedAll(q.graph, q.conflicts.Keys), a)
  {
    hide Rebuild, Grown, WithinBound, AppliedAll, AppliedSet, InNonceOrder, Sound, Net, CreditNet;
    hide Count, Earned, AllOffered;
    RebuildSettles(d);
    RebuildSettles(e);
    var r, q := Rebuild(d).0, Rebuild(e).0;
    var skip := r.conflicts.Keys;
    assert skip + {} == skip;
    var g, h := AppliedAll(r.graph, skip), AppliedAll(q.graph, skip);
    AppliedElements(r.graph, skip);
    AppliedElements(q.graph, skip);
    SameElements(g, h);
    SumOfPermuted(g, h, Moves(a));
    NetSplits(g, a);
    NetSplits(h, a);
  }

  lemma SameApplied(r: Dag, q: Dag)
    requires Inv(r, 0, {}) && Inv(q, 0, {}) && r.graph.vertices == q.graph.vertices && r.faucet == q.faucet
    requires r.conflicts.Keys == q.conflicts.Keys
    ensures r.ledger.supply == q.ledger.supply && r.ledger.txCount == q.ledger.txCount && SameNonces(r, q)
    ensures EarnAlike(AppliedAll(r.graph, r.conflicts.Keys), AppliedAll(q.graph, q.conflicts.Keys)) ==>
      SameAccounts(r, q)
  {
    hide Grown, AppliedAll, AppliedSet, InNonceOrder, Sound, Net, CreditNet, Count, EarnAlike;
    var skip := r.conflicts.Keys;
    assert skip + {} == skip;
    var g, h := AppliedAll(r.graph, skip), AppliedAll(q.graph, skip);
    AppliedElements(r.graph, skip);
    AppliedElements(q.graph, skip);
    SameElements(g, h);
    assert |multiset(g)| == |g| && |multiset(h)| == |h|;
    forall s ensures At(r.ledger.nonces, s) == At(q.ledger.nonces, s) {
      CountAsSum(g, s);
      CountAsSum(h, s);
      SumOfPermuted(g, h, SpendsFrom(s));
      assert At(Base(r.graph, 0), s) == 0 == At(Base(q.graph, 0), s);
    }
    forall a | EarnAlike(g, h)
      ensures At(r.ledger.balances, a) == At(q.ledger.balances, a) && At(r.ledger.credits, a) == At(q.ledger.credits, a)
    {
      NetPermuted(g, h, a);
    }
  }

  lemma LonePay(x: DagTransaction, k: nat)
    requires x.relayNodes == [] && x.relayProofs == [] && x.fee == FIXED_TRANSACTION_FEE
    ensures Delta(x, k, x.sender)
          == SubsidyAt(k) + x.fee - x.Cost() + if x.sender == x.recipient then x.amount as int else 0
  {
    hide SubsidyAt;
    assert x.ProvenRelayNodes() == [];
    ShareSplit(Pool(x, k));
  }

  lemma NothingFor(y: DagTransaction, k: nat, a: Address)
    requires y.relayNodes == [] && y.relayProofs == [] && a != y.sender && a != y.recipient
    ensures Delta(y, k, a) == 0
  {
    hide SubsidyAt;
    assert y.ProvenRelayNodes() == [];
  }
}
