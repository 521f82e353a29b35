/** When replicas of one vertex set agree whatever order they attached it in, and what decides
    between spends of one sender.  A rebuild keeps the lower nonce, whatever the ranks; which
    nonces are due when depends on the attach order unless ancestry fixes it, and what can be
    paid depends on it unless faucet and ancestors pay. */
module Agreement {
  import opened Basics
  import opened Economics
  import opened Transactions
  import opened Ledgers
  import opened Graphs
  import opened Ancestry
  import opened Building
  import opened Weights
  import opened History
  import opened Dags
  import opened Settlement
  import opened Steps
  import opened Safety
  import opened Refinement
  import opened Replicas
  import opened Reordering

  /** A user vertex that no rival of the same nonce beats. */
  ghost predicate Survivor(vs: Vertices, losers: set<TxHash>, v: TxHash) {
    !Skipped(vs, losers, v)
  }

  /** `p` is the survivor that carries the nonce just before that of the survivor `v`. */
  ghost predicate Precedes(vs: Vertices, losers: set<TxHash>, p: TxHash, v: TxHash) {
    && Survivor(vs, losers, p) && Survivor(vs, losers, v)
    && vs[p].sender == vs[v].sender && vs[p].nonce + 1 == vs[v].nonce
  }

  /** Every earlier nonce of the sender is carried by an ancestor, down to 0. */
  ghost predicate Rooted(vs: Vertices, losers: set<TxHash>, v: TxHash)
    decreases if v in vs then vs[v].nonce else 0
  {
    && Survivor(vs, losers, v)
    && (vs[v].nonce == 0 || exists p :: p in Closure(vs, v) && Precedes(vs, losers, p, v) && Rooted(vs, losers, p))
  }

  /** Ancestry orders every rooted spend and its successor, one way or the other. */
  ghost predicate Decided(vs: Vertices, losers: set<TxHash>) {
    forall p, v :: Precedes(vs, losers, p, v) && Rooted(vs, losers, p) ==> p in Closure(vs, v) || v in Closure(vs, p)
  }

  // ------------------------------------------------------------------ funds

  /** What a vertex takes from `s`, or pays to it. */
  ghost function Flow(tx: DagTransaction, s: Address, out: bool): nat {
    if out then if tx.sender == s then tx.Cost() else 0
    else if tx.recipient == s then tx.amount else 0
  }

  /** The surviving spends of `v`'s sender up to `v`. */
  ghost function Bill(vs: Vertices, losers: set<TxHash>, v: TxHash): map<TxHash, nat>
    requires v in vs
  {
    map u | u in vs && Survivor(vs, losers,
                                u) && vs[u].sender == vs[v].sender && vs[u].nonce <= vs[v].nonce :: vs[u].Cost()
  }

  /** What rooted ancestors of `v` pay to its sender. */
  ghost function Income(vs: Vertices, losers: set<TxHash>, v: TxHash): map<TxHash, nat>
    requires v in vs
  {
    map u | u in vs && u in Closure(vs, v) && u != v && Rooted(vs, losers, u) :: Flow(vs[u], vs[v].sender, false)
  }

  /** The sender can pay for each spend, and for its own earlier ones, from the faucet and from
      what rooted ancestors of the spend pay in. */
  ghost predicate Covered(vs: Vertices, losers: set<TxHash>, f: map<Address, nat>) {
    forall v {:trigger Survivor(vs, losers, v)} :: v in vs && Survivor(vs, losers, v) ==>
      Sum(Bill(vs, losers, v)) <= At(f, vs[v].sender) + Sum(Income(vs, losers, v))
  }

  ghost function Total(h: seq<DagTransaction>, s: Address, out: bool): nat {
    if h == [] then 0 else Total(h[..|h| - 1], s, out) + Flow(h[|h| - 1], s, out)
  }

  /** Mints only add to what transfers leave. */
  lemma {:induction false} NetAtLeast(h: seq<DagTransaction>, s: Address)
    ensures Net(h, s) + Total(h, s, true) >= Total(h, s, false)
  {
    hide RelayDelta, MinerPaid;
    if h != [] { NetAtLeast(h[..|h| - 1], s); }
  }

  /** The flows of the vertices of `ids` that `skip` does not leave out. */
  ghost function Flows(vs: Vertices, skip: set<TxHash>, ids: set<TxHash>, s: Address, out: bool): map<TxHash, nat> {
    map u | u in vs && u in ids && !Skipped(vs, skip, u) :: Flow(vs[u], s, out)
  }

  lemma FlowsMore(vs: Vertices, skip: set<TxHash>, ids: set<TxHash>, s: Address, out: bool, id: TxHash)
    requires id !in ids
    ensures Sum(Flows(vs, skip, ids + {id}, s, out))
         == Sum(Flows(vs, skip, ids, s, out)) + if Skipped(vs, skip, id) then 0 else Flow(vs[id], s, out)
  {
    hide Flow;
    var m := Flows(vs, skip, ids, s, out);
    if Skipped(vs, skip, id) {
      assert Flows(vs, skip, ids + {id}, s, out) == m;
    } else {
      assert Flows(vs, skip, ids + {id}, s, out) == m[id := Flow(vs[id], s, out)];
      SumUpdate(m, id, Flow(vs[id], s, out));
    }
  }

  lemma {:induction false} TotalIs(vs: Vertices, order: seq<TxHash>, skip: set<TxHash>, n: nat, s: Address, out: bool)
    requires n <= |order| && NoDup(order)
    ensures Total(Applied(vs, order, skip, n), s, out) == Sum(Flows(vs, skip, ToSet(order[..n]), s, out))
  {
    hide Flows, Flow;
    if n == 0 {
      NoFlows(vs, skip, order, s, out);
    } else {
      TotalIs(vs, order, skip, n - 1, s, out);
      PrefixMore(order, n - 1);
      FlowsMore(vs, skip, ToSet(order[..n - 1]), s, out, order[n - 1]);
      var p := Applied(vs, order, skip, n - 1);
      if !Skipped(vs, skip, order[n - 1]) { assert (p + [vs[order[n - 1]]])[..|p|] == p; }
    }
  }

  lemma NoFlows(vs: Vertices, skip: set<TxHash>, order: seq<TxHash>, s: Address, out: bool)
    ensures Sum(Flows(vs, skip, ToSet(order[..0]), s, out)) == 0
  {
    assert Flows(vs, skip, ToSet(order[..0]), s, out) == map[];
  }

  // ------------------------------------------------------- who gets applied

  /** Two survivors that carry the same nonce of one sender. */
  ghost predicate SameNonce(vs: Vertices, losers: set<TxHash>, x: TxHash, y: TxHash) {
    && Survivor(vs, losers, x) && Survivor(vs, losers, y)
    && vs[x].sender == vs[y].sender && vs[x].nonce == vs[y].nonce
  }

  /** Same-nonce losers leave one survivor per sender and nonce. */
  ghost predicate OnePerNonce(vs: Vertices, losers: set<TxHash>) {
    forall x, y {:trigger Survivor(vs, losers, x), Survivor(vs, losers, y)} :: SameNonce(vs, losers, x, y) ==> x == y
  }

  lemma SurvivorsUnique(vs: Vertices, weights: map<TxHash, nat>)
    ensures OnePerNonce(vs, Losers(vs, weights))
  {
    var losers := Losers(vs, weights);
    forall x, y | SameNonce(vs, losers, x, y)
      ensures x == y
    {
      assert x == y || LosesTo(vs, weights, x, y) || LosesTo(vs, weights, y, x);
    }
  }

  /** The predecessor in nonce order was applied before position n. */
  ghost predicate Prepared(vs: Vertices, order: seq<TxHash>, losers: set<TxHash>, extra: set<TxHash>, n: nat)
    requires n < |order|
  {
    exists j :: 0 <= j < n && Precedes(vs, losers, order[j], order[n]) && order[j] !in extra
  }

  /** Position n of a replay that has followed the rule so far. */
  ghost predicate OnRule(vs: Vertices, order: seq<TxHash>, losers: set<TxHash>, extra: set<TxHash>, n: nat)
    requires n <= |order|
  {
    && NoDup(order) && OnePerNonce(vs, losers) && AncestorsFirst(vs, order) && RuleUpTo(vs, order, losers, extra, n)
    && InNonceOrder(Applied(vs, order, losers + extra, n), map[])
  }

  /** The spends applied before a vertex whose nonce is due are on its bill. */
  lemma BillCovers(vs: Vertices, order: seq<TxHash>, losers: set<TxHash>, extra: set<TxHash>, n: nat)
    requires n < |order| && OnRule(vs, order, losers, extra, n) && Survivor(vs, losers, order[n])
    requires vs[order[n]].nonce == Count(Applied(vs, order, losers + extra, n), vs[order[n]].sender)
    ensures var v := order[n];
      Sum(Flows(vs, losers + extra, ToSet(order[..n]), vs[v].sender, true)) + vs[v].Cost() <= Sum(Bill(vs, losers, v))
  {
    hide Applied, Count, InNonceOrder, AncestorsFirst, RuleUpTo, OnePerNonce, Ladder;
    var v, skip := order[n], losers + extra;
    var s := vs[v].sender;
    NonceLadder(Applied(vs, order, skip, n), map[], s);
    PrefixMore(order, n);
    var flows, bill := Flows(vs, skip, ToSet(order[..n]), s, true), Bill(vs, losers, v);
    SumRemove(bill, v);
    forall u | u in flows ensures flows[u] <= At(bill - {v}, u) {
      if vs[u].sender == s {
        assert u in ToSet(order[..n]);
        var j :| 0 <= j < n && order[j] == u;
        CarriedBy(vs, order, losers, extra, n, j);
      }
    }
    SumBelow(flows, bill - {v});
  }

  /** What rooted ancestors pay in has arrived. */
  lemma IncomeArrived(vs: Vertices, order: seq<TxHash>, losers: set<TxHash>, extra: set<TxHash>, n: nat)
    requires n < |order| && OnRule(vs, order, losers, extra, n) && Survivor(vs, losers, order[n])
    ensures var v := order[n];
      Sum(Income(vs, losers, v)) <= Sum(Flows(vs, losers + extra, ToSet(order[..n]), vs[v].sender, false))
  {
    hide Applied, InNonceOrder, Flow, Closure, AncestorsFirst, RuleUpTo, OnePerNonce;
    var v := order[n];
    var income, flows := Income(vs, losers, v), Flows(vs, losers + extra, ToSet(order[..n]), vs[v].sender, false);
    forall u | u in income ensures income[u] <= At(flows, u) {
      var j := AncestorAt(vs, order, n, u);
      RootedApplied(vs, order, losers, extra, n, j);
    }
    SumBelow(income, flows);
  }

  /** So a covered vertex whose nonce is due can pay, whatever was applied before. */
  lemma StillCovered(vs: Vertices, order: seq<TxHash>, losers: set<TxHash>, extra: set<TxHash>, n: nat,
                     f: map<Address, nat>)
    requires n < |order| && OnRule(vs, order, losers, extra, n) && Survivor(vs, losers, order[n])
    requires Covered(vs, losers, f)
    requires vs[order[n]].nonce == Count(Applied(vs, order, losers + extra, n), vs[order[n]].sender)
    ensures At(f, vs[order[n]].sender) + Net(Applied(vs, order, losers + extra, n),
                                             vs[order[n]].sender) >= vs[order[n]].Cost()
  {
    BillCovers(vs, order, losers, extra, n);
    IncomeArrived(vs, order, losers, extra, n);
    hide Applied, Net, Total, Bill, Income, Flows, AncestorsFirst, RuleUpTo, OnePerNonce, InNonceOrder;
    var s := vs[order[n]].sender;
    NetAtLeast(Applied(vs, order, losers + extra, n), s);
    TotalIs(vs, order, losers + extra, n, s, true);
    TotalIs(vs, order, losers + extra, n, s, false);
  }

  /** With the funds, a replay refuses a vertex only for its nonce. */
  lemma OnlyNonces(f: map<Address, nat>, vs: Vertices, order: seq<TxHash>, losers: set<TxHash>, r: Replayed, n: nat)
    requires n < |order| && Replaying(f, vs, order, losers, r, n) && Room(f, |order|) && Lined(vs, order)
    requires PayableAt(vs, order, n) && Survivor(vs, losers, order[n]) && Covered(vs, losers, f)
    requires OnRule(vs, order, losers, ToSet(r.extra), n)
    ensures var id := order[n];
      ReplayOne(vs, losers, r, id).extra ==
        if vs[id].nonce == Count(Applied(vs, order, losers + ToSet(r.extra), n),
                                 vs[id].sender) then r.extra else r.extra + [id]
  {
    hide Applied, Net, Count, Covered, Mint, Emitted, CreditNet, InNonceOrder, OnRule;
    var id := order[n];
    var tx, p := vs[id], Applied(vs, order, losers + ToSet(r.extra), n);
    assert LinedAt(vs, order, n);
    NeverOverflows(r.ledger, f, tx);
    assert At(r.ledger.nonces, tx.sender) == Count(p, tx.sender);
    if tx.nonce == Count(p, tx.sender) {
      StillCovered(vs, order, losers, ToSet(r.extra), n, f);
      Affordable(r.ledger, f, p, tx);
    } else if ApplyEffects(r.ledger, tx).1 != Ok {
      ApplyRefuses(r.ledger, tx);
    }
  }

  /** A nonce carried by the applied vertices is carried by a survivor placed before n. */
  lemma CarriedFrom(vs: Vertices, order: seq<TxHash>, losers: set<TxHash>, extra: set<TxHash>, n: nat,
                    s: Address, k: nat) returns (j: nat)
    requires n <= |order| && Carries(Applied(vs, order, losers + extra, n), s, k)
    ensures j < n && Survivor(vs, losers, order[j]) && order[j] !in extra && vs[order[j]].sender == s
    ensures vs[order[j]].nonce == k
  {
    hide Applied;
    var h := Applied(vs, order, losers + extra, n);
    var i :| 0 <= i < |h| && h[i].sender == s && h[i].nonce == k;
    j := AppliedFrom(vs, order, losers + extra, n, i);
  }

  lemma CarriedBy(vs: Vertices, order: seq<TxHash>, losers: set<TxHash>, extra: set<TxHash>, n: nat, j: nat)
    requires j < n <= |order| && Survivor(vs, losers, order[j]) && order[j] !in extra
    requires Ladder(Applied(vs, order, losers + extra, n), map[], vs[order[j]].sender)
    ensures vs[order[j]].nonce < Count(Applied(vs, order, losers + extra, n), vs[order[j]].sender)
  {
    hide Applied, Count, Carries;
    AppliedHas(vs, order, losers + extra, n, j);
  }

  /** The next vertex has the nonce its sender reached if and only if that is 0 or its
      predecessor was applied. */
  lemma CountRule(vs: Vertices, order: seq<TxHash>, losers: set<TxHash>, extra: set<TxHash>, n: nat)
    requires n < |order| && NoDup(order) && OnePerNonce(vs, losers) && Survivor(vs, losers, order[n])
    requires InNonceOrder(Applied(vs, order, losers + extra, n), map[])
    ensures vs[order[n]].nonce == Count(Applied(vs, order, losers + extra, n), vs[order[n]].sender) <==>
      vs[order[n]].nonce == 0 || Prepared(vs, order, losers, extra, n)
  {
    var h, s, k := Applied(vs, order, losers + extra, n), vs[order[n]].sender, vs[order[n]].nonce;
    hide Applied, Count, InNonceOrder, Carries, Survivor;
    NonceLadder(h, map[], s);
    if k < Count(h, s) {
      assert Carries(h, s, k);
      var j := CarriedFrom(vs, order, losers, extra, n, s, k);
    }
    if k == Count(h, s) && k > 0 {
      assert Carries(h, s, k - 1);
      var j := CarriedFrom(vs, order, losers, extra, n, s, k - 1);
      assert Precedes(vs, losers, order[j], order[n]);
    }
    if j :| 0 <= j < n && Precedes(vs, losers, order[j], order[n]) && order[j] !in extra {
      CarriedBy(vs, order, losers, extra, n, j);
    }
  }

  /** Up to position n, a survivor is applied if and only if its nonce is 0 or its predecessor
      was applied before. */
  ghost predicate RuleUpTo(vs: Vertices, order: seq<TxHash>, losers: set<TxHash>, extra: set<TxHash>, n: nat)
    requires n <= |order|
  {
    forall i {:trigger order[i]} :: 0 <= i < n && Survivor(vs, losers, order[i]) ==>
      (order[i] !in extra <==> vs[order[i]].nonce == 0 || Prepared(vs, order, losers, extra, i))
  }

  /** The rule for positions before n does not mind what happens at n. */
  lemma RuleKept(vs: Vertices, order: seq<TxHash>, losers: set<TxHash>, extra: set<TxHash>, extra': set<TxHash>, n: nat)
    requires n < |order| && NoDup(order) && RuleUpTo(vs, order, losers, extra, n)
    requires extra <= extra' <= extra + {order[n]}
    ensures RuleUpTo(vs, order, losers, extra', n)
    ensures Prepared(vs, order, losers, extra', n) <==> Prepared(vs, order, losers, extra, n)
  {
    hide Precedes, Survivor;
    forall i | 0 <= i < n ensures order[i] in extra <==> order[i] in extra' {}
    forall i | 0 <= i <= n ensures Prepared(vs, order, losers, extra', i) <==> Prepared(vs, order, losers, extra, i) {}
  }

  lemma {:induction false} ReplayRule(f: map<Address, nat>, vs: Vertices, order: seq<TxHash>,
                                      losers: set<TxHash>, n: nat)
    requires Lined(vs, order) && Payable(vs, order) && Room(f, |order|) && n <= |order|
    requires OnePerNonce(vs, losers) && Covered(vs, losers, f) && AncestorsFirst(vs, order)
    ensures RuleUpTo(vs, order, losers, ToSet(Replay(vs, order, losers, Baseline(f), n).extra), n)
  {
    hide Payable, PayableAt, ReplayOne, Room, Covered, OnePerNonce, Replaying, Baseline, ToSet, AncestorsFirst;
    if n > 0 {
      ReplayRule(f, vs, order, losers, n - 1);
      ReplayLaw(f, vs, order, losers, n - 1);
      RuleNext(f, vs, order, losers, Replay(vs, order, losers, Baseline(f), n - 1), n - 1);
    }
  }

  lemma RuleNext(f: map<Address, nat>, vs: Vertices, order: seq<TxHash>, losers: set<TxHash>, r: Replayed, n: nat)
    requires n < |order| && Lined(vs, order) && Payable(vs, order) && Room(f, |order|)
    requires OnePerNonce(vs, losers) && Covered(vs, losers, f) && AncestorsFirst(vs, order)
    requires Replaying(f, vs, order, losers, r, n) && RuleUpTo(vs, order, losers, ToSet(r.extra), n)
    ensures RuleUpTo(vs, order, losers, ToSet(ReplayOne(vs, losers, r, order[n]).extra), n + 1)
  {
    assert PayableAt(vs, order, n);
    ReplayingFacts(f, vs, order, losers, r, n);
    NotYetExtra(order, r, n);
    hide Applied, Count, Covered, OnePerNonce, InNonceOrder, ReplayOne, Prepared, Replaying;
    hide PayableAt, Payable, LinedAt, Skipped, RuleUpTo, ToSet, Room, Survivor, AncestorsFirst;
    if Survivor(vs, losers, order[n]) {
      assert OnRule(vs, order, losers, ToSet(r.extra), n);
      OnlyNonces(f, vs, order, losers, r, n);
      CountRule(vs, order, losers, ToSet(r.extra), n);
    } else {
      SkippedStays(vs, losers, r, order[n]);
    }
    RuleExtend(vs, order, losers, ToSet(r.extra), ToSet(ReplayOne(vs, losers, r, order[n]).extra), n);
  }

  lemma RuleExtend(vs: Vertices, order: seq<TxHash>, losers: set<TxHash>, extra: set<TxHash>, more: set<TxHash>, n: nat)
    requires n < |order| && NoDup(order) && RuleUpTo(vs, order, losers, extra, n)
    requires (more == extra || more == extra + {order[n]})
    requires order[n] !in extra
    requires Survivor(vs, losers, order[n]) ==>
      (more == extra <==> vs[order[n]].nonce == 0 || Prepared(vs, order, losers, extra, n))
    ensures RuleUpTo(vs, order, losers, more, n + 1)
  {
    hide Survivor, Prepared;
    RuleKept(vs, order, losers, extra, more, n);
  }

  lemma ReplayingFacts(f: map<Address, nat>, vs: Vertices, order: seq<TxHash>, losers: set<TxHash>, r: Replayed, n: nat)
    requires n <= |order| && Replaying(f, vs, order, losers, r, n)
    ensures ToSet(r.extra) <= ToSet(order[..n]) && InNonceOrder(Applied(vs, order, losers + ToSet(r.extra), n), map[])
  {
    hide Applied, InNonceOrder, Explained, Sound;
  }

  lemma NotYetExtra(order: seq<TxHash>, r: Replayed, n: nat)
    requires n < |order| && NoDup(order) && ToSet(r.extra) <= ToSet(order[..n])
    ensures order[n] !in ToSet(r.extra) && ToSet(r.extra + [order[n]]) == ToSet(r.extra) + {order[n]} != ToSet(r.extra)
  {
    assert order[n] !in ToSet(order[..n]);
  }

  lemma SkippedStays(vs: Vertices, losers: set<TxHash>, r: Replayed, id: TxHash)
    requires !Survivor(vs, losers, id)
    ensures ReplayOne(vs, losers, r, id) == r
  {}

  // ------------------------------------------------------- what a rebuild drops

  ghost function LosersOf(d: Dag): set<TxHash> {
    Losers(d.graph.vertices, d.graph.weights)
  }

  ghost function DroppedBy(d: Dag): set<TxHash> {
    Rebuild(d).0.conflicts.Keys
  }

  /** Every surviving spend is paid for, so that nonces alone decide. */
  ghost predicate Funds(d: Dag) {
    Covered(d.graph.vertices, LosersOf(d), d.faucet)
  }

  /** A rebuild drops the same-nonce losers and what the rule leaves out. */
  lemma RebuildRule(d: Dag)
    requires Replica(d) && Funds(d)
    ensures LosersOf(d) <= DroppedBy(d)
    ensures forall x :: x in DroppedBy(d) && x !in LosersOf(d) ==> Survivor(d.graph.vertices, LosersOf(d), x)
    ensures RuleUpTo(d.graph.vertices, d.graph.order, LosersOf(d), DroppedBy(d), |d.graph.order|)
  {
    hide Grown, WithinBound, Losers, Covered, Replay, AllOffered, AncestorsFirst;
    var vs, order, losers := d.graph.vertices, d.graph.order, LosersOf(d);
    StockedPayable(d);
    SurvivorsUnique(vs, d.graph.weights);
    GrownAncestorsFirst(d.graph);
    ReplayRule(d.faucet, vs, order, losers, |order|);
    ReplayLaw(d.faucet, vs, order, losers, |order|);
    RuleWithLosers(vs, order, losers, ToSet(ReplayAll(d).extra), DroppedBy(d));
  }

  lemma RuleWithLosers(vs: Vertices, order: seq<TxHash>, losers: set<TxHash>, extra: set<TxHash>, all: set<TxHash>)
    requires RuleUpTo(vs, order, losers, extra, |order|) && all == losers + extra
    ensures RuleUpTo(vs, order, losers, all, |order|)
  {
    forall i | 0 <= i < |order| ensures Prepared(vs, order, losers, all, i) <==> Prepared(vs, order, losers, extra, i) {
      forall j | 0 <= j < i && Precedes(vs, losers, order[j], order[i])
        ensures order[j] in all <==> order[j] in extra
      {}
    }
  }

  // -------------------------------------------------------------- ancestry

  /** Ancestors come before. */
  ghost predicate AncestorsFirst(vs: Vertices, order: seq<TxHash>) {
    forall i {:trigger order[i]} :: 0 <= i < |order| ==> Closure(vs, order[i]) <= ToSet(order[..i]) + {order[i]}
  }

  lemma GrownAncestorsFirst(g: Graph)
    requires Grown(g)
    ensures AncestorsFirst(g.vertices, g.order)
  {
    hide Grown, Closure;
    GrownShaped(g);
    forall i | 0 <= i < |g.order| ensures Closure(g.vertices, g.order[i]) <= ToSet(g.order[..i]) + {g.order[i]} {
      AncestorsEarlier(g, i);
      ClosureUnfold(g.vertices, g.order[i]);
    }
  }

  /** A strict ancestor's position is smaller. */
  lemma AncestorAt(vs: Vertices, order: seq<TxHash>, i: nat, p: TxHash) returns (j: nat)
    requires AncestorsFirst(vs, order) && i < |order| && p in Closure(vs, order[i]) && p != order[i]
    ensures j < i && order[j] == p
  {
    hide Closure;
    assert p in ToSet(order[..i]);
    j :| 0 <= j < i && order[j] == p;
  }

  /** A rooted spend is applied in every order. */
  lemma {:induction false} RootedApplied(vs: Vertices, order: seq<TxHash>, losers: set<TxHash>,
                                         all: set<TxHash>, n: nat, i: nat)
    requires AncestorsFirst(vs, order) && i < n <= |order| && RuleUpTo(vs, order, losers, all, n)
    requires Rooted(vs, losers, order[i])
    ensures order[i] !in all
    decreases i
  {
    hide Closure, AncestorsFirst, Precedes;
    if vs[order[i]].nonce > 0 {
      var p := Root(vs, losers, order[i]);
      var j := AncestorAt(vs, order, i, p);
      RootedApplied(vs, order, losers, all, n, j);
      assert Prepared(vs, order, losers, all, i);
    }
  }

  /** The ancestor that carries the nonce before. */
  lemma Root(vs: Vertices, losers: set<TxHash>, v: TxHash) returns (p: TxHash)
    requires Rooted(vs, losers, v) && vs[v].nonce > 0
    ensures p in Closure(vs, v) && Precedes(vs, losers, p, v) && Rooted(vs, losers, p) && p != v
  {
    hide Closure;
    p :| p in Closure(vs, v) && Precedes(vs, losers, p, v) && Rooted(vs, losers, p);
  }

  /** Where ancestry decides, only rooted spends are applied. */
  lemma {:induction false} AppliedRooted(vs: Vertices, order: seq<TxHash>, losers: set<TxHash>,
                                         all: set<TxHash>, i: nat)
    requires AncestorsFirst(vs, order) && NoDup(order) && RuleUpTo(vs, order, losers, all, |order|)
    requires Decided(vs, losers)
    requires i < |order| && Survivor(vs, losers, order[i]) && order[i] !in all
    ensures Rooted(vs, losers, order[i])
  {
    hide Closure, AncestorsFirst;
    if vs[order[i]].nonce > 0 {
      assert Prepared(vs, order, losers, all, i);
      var j :| 0 <= j < i && Precedes(vs, losers, order[j], order[i]) && order[j] !in all;
      AppliedRooted(vs, order, losers, all, j);
      if order[j] !in Closure(vs, order[i]) {
        var k := AncestorAt(vs, order, j, order[i]);
        assert false;
      }
    }
  }

  /** The user vertices that some order may lose: those that are beaten or not rooted. */
  ghost function Doomed(vs: Vertices, losers: set<TxHash>): set<TxHash> {
    set v | v in vs && !vs[v].IsGenesis() && !Rooted(vs, losers, v)
  }

  /** Where ancestry decides, a rebuild drops exactly the beaten and the unrooted spends. */
  lemma DecidedDrops(d: Dag)
    requires Replica(d) && Funds(d) && Decided(d.graph.vertices, LosersOf(d))
    ensures DroppedBy(d) == Doomed(d.graph.vertices, LosersOf(d))
  {
    hide Grown, WithinBound, Funds, DroppedBy, AncestorsFirst, RuleUpTo, Decided, Rooted, AllOffered, LosersOf;
    var vs, order, losers := d.graph.vertices, d.graph.order, LosersOf(d);
    RebuildRule(d);
    LosersUser(d);
    GrownAncestorsFirst(d.graph);
    GrownLined(d.graph);
    forall v | v in vs && !vs[v].IsGenesis() ensures v in DroppedBy(d) <==> !Rooted(vs, losers, v) {
      assert v in ToSet(order);
      var i :| 0 <= i < |order| && order[i] == v;
      if Rooted(vs, losers, v) { RootedApplied(vs, order, losers, DroppedBy(d), |order|, i); }
      else if v !in DroppedBy(d) { AppliedRooted(vs, order, losers, DroppedBy(d), i); }
    }
  }

  lemma LosersUser(d: Dag)
    ensures forall x :: x in LosersOf(d) ==> x in d.graph.vertices && !d.graph.vertices[x].IsGenesis()
  {}

  // ---------------------------------------------------------------- twins

  lemma TwinsShare(d: Dag, e: Dag)
    requires Twin(d, e)
    ensures LosersOf(e) == LosersOf(d) && (Funds(d) ==> Funds(e))
  {
    hide Grown, WithinBound, Losers, AllOffered, Covered;
    SameWeights(d, e);
  }

  /** A spend attached before its predecessor is dropped; attached after a rooted one, it is
      applied. */
  lemma OrderDecides(d: Dag, p: TxHash, v: TxHash, i: nat, j: nat)
    requires Replica(d) && Funds(d) && Precedes(d.graph.vertices, LosersOf(d), p, v)
    requires i < |d.graph.order| && j < |d.graph.order| && d.graph.order[i] == v && d.graph.order[j] == p
    ensures i < j ==> v in DroppedBy(d)
    ensures j < i && Rooted(d.graph.vertices, LosersOf(d), p) ==> v !in DroppedBy(d)
  {
    hide Grown, WithinBound, Funds, DroppedBy, AncestorsFirst, Rooted, AllOffered;
    var vs, order, losers := d.graph.vertices, d.graph.order, LosersOf(d);
    RebuildRule(d);
    GrownAncestorsFirst(d.graph);
    GrownLined(d.graph);
    SurvivorsUnique(vs, d.graph.weights);
    hide Losers, LosersOf;
    if i < j { NotPrepared(vs, order, losers, DroppedBy(d), i, j); }
    if j < i && Rooted(vs, losers, p) {
      RootedApplied(vs, order, losers, DroppedBy(d), |order|, j);
      assert Prepared(vs, order, losers, DroppedBy(d), i);
    }
  }

  lemma NotPrepared(vs: Vertices, order: seq<TxHash>, losers: set<TxHash>, all: set<TxHash>, i: nat, j: nat)
    requires i < j < |order| && NoDup(order) && OnePerNonce(vs, losers) && Precedes(vs, losers, order[j], order[i])
    ensures !Prepared(vs, order, losers, all, i)
  {
    forall k | 0 <= k < i && Precedes(vs, losers, order[k], order[i]) ensures order[k] == order[j] {}
  }

  /** Where ancestry leaves a rooted spend and its successor open, one attach order applies the
      successor and another drops it. */
  lemma UndecidedSplits(d: Dag) returns (x: Dag, y: Dag)
    requires Replica(d) && Funds(d) && !Decided(d.graph.vertices, LosersOf(d))
    ensures Twin(d, x) && Twin(d, y) && DroppedBy(x) != DroppedBy(y)
  {
    hide Grown, WithinBound, Funds, DroppedBy, Rooted, AllOffered, LosersOf, Closure;
    var vs, losers := d.graph.vertices, LosersOf(d);
    var p, v :| Precedes(vs, losers, p, v) && Rooted(vs, losers, p) && p !in Closure(vs, v) && v !in Closure(vs, p);
    x := ClosureFirst(d, v);
    y := ClosureFirst(d, p);
    TwinsShare(d, x);
    TwinsShare(d, y);
    var i, j := Positions(x, v, p);
    OrderDecides(x, p, v, i, j);
    var k, l := Positions(y, p, v);
    OrderDecides(y, p, v, l, k);
  }

  /** Where the two stand when the closure of the first leads. */
  lemma Positions(e: Dag, u: TxHash, w: TxHash) returns (i: nat, j: nat)
    requires Replica(e) && u in e.graph.vertices && w in e.graph.vertices
    requires Leads(e.graph.order, Closure(e.graph.vertices, u)) && w !in Closure(e.graph.vertices, u)
    ensures i < j < |e.graph.order| && e.graph.order[i] == u && e.graph.order[j] == w
  {
    hide Grown, Closure, AllOffered;
    GrownShaped(e.graph);
    i := IndexOf(e.graph, u);
    j := IndexOf(e.graph, w);
    ClosureIsClosed(e.graph.vertices, u);
  }

  // ----------------------------------------------------------------- nonces

  /** A rebuild keeps a survivor if and only if the sender's next nonce is past its own. */
  lemma KeptByNonce(d: Dag, v: TxHash)
    requires Replica(d) && Survivor(d.graph.vertices, LosersOf(d), v)
    ensures v !in DroppedBy(d) <==>
      d.graph.vertices[v].nonce < At(Rebuild(d).0.ledger.nonces, d.graph.vertices[v].sender)
  {
    hide Grown, WithinBound, AllOffered, Losers, Settled, Replay;
    var vs, r := d.graph.vertices, Rebuild(d).0;
    var s, k := vs[v].sender, vs[v].nonce;
    RebuildSettles(d);
    RebuildVerdicts(d);
    SurvivorsUnique(vs, d.graph.weights);
    NoncesExact(r, 0, {}, s, k);
    OneKept(r, LosersOf(d), v);
  }

  lemma OneKept(r: Dag, losers: set<TxHash>, v: TxHash)
    requires OnePerNonce(r.graph.vertices, losers) && losers <= r.conflicts.Keys
    requires Survivor(r.graph.vertices, losers, v)
    ensures var vs := r.graph.vertices;
      v !in r.conflicts <==>
        exists id :: Affects(r, {}, id) && vs[id].sender == vs[v].sender && vs[id].nonce == vs[v].nonce
  {
    var vs := r.graph.vertices;
    assert r.conflicts.Keys + {} == r.conflicts.Keys;
    forall id | Affects(r, {}, id) ensures Survivor(vs, losers, id) {}
    if v !in r.conflicts { assert Affects(r, {}, v); }
  }

  /** Replicas agree on every nonce if and only if their rebuilds drop the same vertices. */
  lemma NoncesDecide(d: Dag, e: Dag)
    requires Twin(d, e)
    ensures SameNonces(Rebuild(d).0, Rebuild(e).0) <==> DroppedBy(d) == DroppedBy(e)
  {
    hide Replica, Rebuild, Losers, EarnAlike, SameAccounts;
    ReplicasAgree(d, e);
    TwinsShare(d, e);
    if SameNonces(Rebuild(d).0, Rebuild(e).0) {
      forall v ensures v in DroppedBy(d) <==> v in DroppedBy(e) {
        DroppedUser(d);
        DroppedUser(e);
        if Survivor(d.graph.vertices, LosersOf(d), v) {
          KeptByNonce(d, v);
          KeptByNonce(e, v);
        }
      }
    }
  }

  /** Everything dropped is beaten or a survivor, and everything beaten is dropped. */
  lemma DroppedUser(d: Dag)
    requires Replica(d)
    ensures LosersOf(d) <= DroppedBy(d)
    ensures forall x :: x in DroppedBy(d) ==> x in LosersOf(d) || Survivor(d.graph.vertices, LosersOf(d), x)
  {
    hide Grown, WithinBound, AllOffered, Losers, Replay;
    var vs, order := d.graph.vertices, d.graph.order;
    StockedPayable(d);
    ReplayLaw(d.faucet, vs, order, LosersOf(d), |order|);
  }

  // --------------------------------------------------------------- theorems

  /** The replicas of a vertex set whose faucet covers it drop the same vertices and reach the
      same nonces, whatever order they attached it in, if and only if ancestry decides each
      rooted spend against its successor; then they drop exactly the doomed ones. */
  lemma AgreementExact(d: Dag)
    requires Replica(d) && Funds(d)
    ensures Decided(d.graph.vertices, LosersOf(d)) <==> forall e :: Twin(d, e) ==> DroppedBy(e) == DroppedBy(d)
    ensures Decided(d.graph.vertices, LosersOf(d)) <==>
      forall e :: Twin(d, e) ==> SameNonces(Rebuild(d).0, Rebuild(e).0)
    ensures Decided(d.graph.vertices, LosersOf(d)) ==> DroppedBy(d) == Doomed(d.graph.vertices, LosersOf(d))
  {
    hide Replica, Funds, DroppedBy, LosersOf, Decided, Doomed, Rebuild, SameNonces;
    forall e | Twin(d, e) ensures SameNonces(Rebuild(d).0, Rebuild(e).0) <==> DroppedBy(d) == DroppedBy(e) {
      NoncesDecide(d, e);
    }
    if Decided(d.graph.vertices, LosersOf(d)) {
      DecidedDrops(d);
      forall e | Twin(d, e) ensures DroppedBy(e) == DroppedBy(d) {
        TwinsShare(d, e);
        DecidedDrops(e);
      }
    } else {
      var x, y := UndecidedSplits(d);
      assert Twin(d, x) && Twin(d, y);
    }
  }

  /** No two user vertices share a sender and a nonce, and each nonce above 0 has the one below
      among the ancestors. */
  ghost predicate Orderly(vs: Vertices) {
    && (forall x, y :: !Rivals(vs, x, y))
    && (forall v {:trigger vs[v]} :: v in vs && !vs[v].IsGenesis() && vs[v].nonce > 0 ==>
          exists p :: p in Closure(vs, v) && Precedes(vs, {}, p, v))
  }

  lemma NoRivalsNoLosers(vs: Vertices, weights: map<TxHash, nat>)
    ensures Losers(vs, weights) == {} <==> forall x, y :: !Rivals(vs, x, y)
  {
    if x, y :| Rivals(vs, x, y) {
      assert LosesTo(vs, weights, x, y) || LosesTo(vs, weights, y, x);
      assert x in Losers(vs, weights) || y in Losers(vs, weights);
    }
  }

  lemma {:induction false} OrderlyRooted(vs: Vertices, v: TxHash)
    requires Orderly(vs) && v in vs && !vs[v].IsGenesis()
    ensures Rooted(vs, {}, v)
    decreases vs[v].nonce
  {
    hide Closure, Rivals;
    if vs[v].nonce > 0 {
      var p :| p in Closure(vs, v) && Precedes(vs, {}, p, v);
      OrderlyRooted(vs, p);
    }
  }

  /** No attach order loses anything if and only if the spends are orderly. */
  lemma NothingDroppedExact(d: Dag)
    requires Replica(d) && Funds(d)
    ensures Orderly(d.graph.vertices) <==> forall e :: Twin(d, e) ==> DroppedBy(e) == {}
  {
    hide Replica, Funds, LosersOf, DroppedBy, Decided, Doomed;
    var vs := d.graph.vertices;
    LosersRivals(d);
    AgreementExact(d);
    TwinSelf(d);
    if Orderly(vs) {
      OrderlyDecided(vs);
      forall e | Twin(d, e) ensures DroppedBy(e) == {} { assert DroppedBy(e) == DroppedBy(d); }
    } else if forall e :: Twin(d, e) ==> DroppedBy(e) == {} {
      assert DroppedBy(d) == {};
      LosersDropped(d);
      RootedOrderly(vs);
    }
  }

  lemma TwinSelf(d: Dag)
    requires Replica(d)
    ensures Twin(d, d)
  {}

  lemma LosersRivals(d: Dag)
    ensures LosersOf(d) == {} <==> forall x, y :: !Rivals(d.graph.vertices, x, y)
  {
    hide Rivals;
    NoRivalsNoLosers(d.graph.vertices, d.graph.weights);
  }

  lemma LosersDropped(d: Dag)
    requires Replica(d) && Funds(d)
    ensures LosersOf(d) <= DroppedBy(d)
  {
    hide Replica, Funds, LosersOf, DroppedBy;
    RebuildRule(d);
  }

  lemma OrderlyDecided(vs: Vertices)
    requires Orderly(vs)
    ensures Decided(vs, {}) && Doomed(vs, {}) == {}
  {
    hide Closure, Rooted;
    forall v | v in vs && !vs[v].IsGenesis() ensures Rooted(vs, {}, v) { OrderlyRooted(vs, v); }
    forall p, v | Precedes(vs, {}, p, v) ensures p in Closure(vs, v) {
      var q :| q in Closure(vs, v) && Precedes(vs, {}, q, v);
      assert q == p || Rivals(vs, q, p);
    }
  }

  lemma RootedOrderly(vs: Vertices)
    requires Doomed(vs, {}) == {} && forall x, y :: !Rivals(vs, x, y)
    ensures Orderly(vs)
  {
    hide Closure, Rivals;
    forall v | v in vs && !vs[v].IsGenesis() && vs[v].nonce > 0
      ensures exists p :: p in Closure(vs, v) && Precedes(vs, {}, p, v)
    {
      assert v !in Doomed(vs, {});
      var p := Root(vs, {}, v);
    }
  }

  /** Two ledgers that no account can tell apart. */
  ghost predicate SameLedgers(r: Dag, q: Dag) {
    r.ledger.supply == q.ledger.supply && r.ledger.txCount == q.ledger.txCount && SameNonces(r, q) && SameAccounts(r, q)
  }

  lemma FewApplied(r: Dag)
    requires Inv(r, 0, {})
    ensures |AppliedAll(r.graph, r.conflicts.Keys)| <= |r.graph.order|
  {
    hide Grown, AppliedAll, Explained, InNonceOrder, Sound;
    assert r.conflicts.Keys + {} == r.conflicts.Keys;
    GrownLined(r.graph);
    AppliedCount(r.graph, r.conflicts.Keys);
  }

  lemma SameLedgersWhen(d: Dag, e: Dag)
    requires Twin(d, e) && |d.graph.order| <= TX_HALVING_INTERVAL && DroppedBy(e) == DroppedBy(d)
    ensures SameLedgers(Rebuild(d).0, Rebuild(e).0)
  {
    hide Rebuild, Losers, Grown, WithinBound, AllOffered, Settled, EarnAlike, SameAccounts, SameNonces, AppliedAll;
    RebuildSettles(d);
    RebuildSettles(e);
    GrownLined(d.graph);
    GrownLined(e.graph);
    FewApplied(Rebuild(d).0);
    FewApplied(Rebuild(e).0);
    FirstEraAlike(AppliedAll(d.graph, DroppedBy(d)), AppliedAll(e.graph, DroppedBy(d)));
    ReplicasAgree(d, e);
  }

  /** Up to the first halving, replicas of one vertex set with the funds agree on the whole ledger
      in every attach order if and only if ancestry decides. */
  lemma FirstEraExact(d: Dag)
    requires Replica(d) && Funds(d) && |d.graph.order| <= TX_HALVING_INTERVAL
    ensures Decided(d.graph.vertices, LosersOf(d)) <==>
      forall e :: Twin(d, e) ==> SameLedgers(Rebuild(d).0, Rebuild(e).0)
  {
    hide Replica, Funds, DroppedBy, LosersOf, Decided, Doomed, Rebuild, SameNonces, SameAccounts, Twin;
    AgreementExact(d);
    if Decided(d.graph.vertices, LosersOf(d)) {
      forall e | Twin(d, e) ensures SameLedgers(Rebuild(d).0, Rebuild(e).0) { SameLedgersWhen(d, e); }
    }
  }

  /** Where ancestry decides, two replicas with the funds agree on a balance if and only if, over
      the vertices that are not doomed, mints paid the account the same in both attach orders. */
  lemma DecidedBalances(d: Dag, e: Dag, a: Address)
    requires Twin(d, e) && Funds(d) && Decided(d.graph.vertices, LosersOf(d))
    ensures var doomed := Doomed(d.graph.vertices, LosersOf(d));
      At(Rebuild(d).0.ledger.balances, a) == At(Rebuild(e).0.ledger.balances, a) <==>
        Earned(AppliedAll(d.graph, doomed), a) == Earned(AppliedAll(e.graph, doomed), a)
  {
    hide Rebuild, Losers, Grown, WithinBound, AllOffered, Settled, Decided, Doomed, Funds, AppliedAll, Earned;
    TwinsShare(d, e);
    DecidedDrops(d);
    DecidedDrops(e);
    RebuildSettles(d);
    RebuildSettles(e);
    BalancesExact(d, e, a);
  }

  // ------------------------------------------------------------------- rank

  /** Two surviving spends of one sender, `x` with the lower nonce. */
  ghost predicate Ordered(d: Dag, x: TxHash, y: TxHash) {
    var vs := d.graph.vertices;
    && Survivor(vs, LosersOf(d), x) && Survivor(vs, LosersOf(d), y)
    && vs[x].sender == vs[y].sender && vs[x].nonce < vs[y].nonce
  }

  /** Whatever the funds and the attach order, a rebuild that keeps the higher nonce keeps the
      lower one. */
  lemma LowerKept(d: Dag, x: TxHash, y: TxHash)
    requires Replica(d) && Ordered(d, x, y) && y !in DroppedBy(d)
    ensures x !in DroppedBy(d)
  {
    hide Replica, LosersOf, DroppedBy;
    KeptByNonce(d, x);
    KeptByNonce(d, y);
  }

  /** Where exactly one of two spends is dropped, the other outranks it. */
  ghost predicate ByRank(d: Dag, x: TxHash, y: TxHash) {
    && (x in DroppedBy(d) && y !in DroppedBy(d) ==> Outranks(d.graph.weights, y, x))
    && (y in DroppedBy(d) && x !in DroppedBy(d) ==> Outranks(d.graph.weights, x, y))
  }

  /** When a rebuild keeps exactly one of two spends of a sender it is the lower nonce, so rank
      decided between them if and only if the lower nonce outranks the higher. */
  lemma RankExact(d: Dag, x: TxHash, y: TxHash)
    requires Replica(d) && Ordered(d, x, y) && (x in DroppedBy(d) <==> y !in DroppedBy(d))
    ensures x !in DroppedBy(d) && y in DroppedBy(d)
    ensures ByRank(d, x, y) <==> Outranks(d.graph.weights, x, y)
  {
    hide Replica, LosersOf, DroppedBy, Ordered;
    if y !in DroppedBy(d) { LowerKept(d, x, y); }
  }

  /** An ancestor outranks what approves it. */
  lemma AncestorOutranks(d: Dag, x: TxHash, y: TxHash)
    requires Replica(d) && x in d.graph.vertices && y in d.graph.vertices && x in Closure(d.graph.vertices, y) && x != y
    ensures Outranks(d.graph.weights, x, y)
  {
    hide Grown, WithinBound, AllOffered, Closure, Approvers;
    WeightsExact(d.graph);
    GrownShaped(d.graph);
    AncestorApproved(d.graph, x, y);
    ProperSubsetSmaller(Approvers(d.graph.vertices, y), Approvers(d.graph.vertices, x));
  }

  lemma AncestorApproved(g: Graph, x: TxHash, y: TxHash)
    requires Shaped(g) && x in g.vertices && y in g.vertices && x in Closure(g.vertices, y) && x != y
    ensures Approvers(g.vertices, y) < Approvers(g.vertices, x)
  {
    hide Closure;
    var vs := g.vertices;
    forall u | u in Approvers(vs, y) ensures u in Approvers(vs, x) { ReachesTransitive(vs, u, y, x); }
    ClosureIsClosed(vs, x);
    Acyclic(g, y);
    ClosureUnfold(vs, y);
    if y in Closure(vs, x) { Loops(g, x, y); }
    assert x in Approvers(vs, x) && x !in Approvers(vs, y);
  }

  /** No two vertices are ancestors of each other. */
  lemma Loops(g: Graph, x: TxHash, y: TxHash)
    requires Shaped(g) && x in g.vertices && y in g.vertices && x in Closure(g.vertices, y)
    requires y in Closure(g.vertices, x)
    ensures x == y
  {
    hide Closure;
    var i := IndexOf(g, x);
    var j := IndexOf(g, y);
    AncestorsEarlier(g, i);
    AncestorsEarlier(g, j);
    ClosureUnfold(g.vertices, x);
    ClosureUnfold(g.vertices, y);
  }

  /** Where each spend approves the sender's earlier ones, rank decides every pair of them. */
  lemma ChainsByRank(d: Dag)
    requires Replica(d)
    requires forall x, y :: Ordered(d, x, y) ==> x in Closure(d.graph.vertices, y)
    ensures forall x, y :: Ordered(d, x, y) ==> ByRank(d, x, y)
  {
    hide Replica, LosersOf, DroppedBy, Closure;
    forall x, y | Ordered(d, x, y) ensures ByRank(d, x, y) {
      AncestorOutranks(d, x, y);
      if y !in DroppedBy(d) { LowerKept(d, x, y); }
    }
  }
}
