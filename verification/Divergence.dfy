/** Runs a node can take that show what attach order does and does not decide: a spend before
    its predecessor, spends that overlap in balance, a spend of money that has not arrived, and
    an order that crosses a halving. */
module Divergence {
  import opened Basics
  import opened Economics
  import opened Transactions
  import opened Ledgers
  import opened Graphs
  import opened Ancestry
  import opened Building
  import opened Weights
  import opened History
  import opened Dags
  import opened Settlement
  import opened Steps
  import opened Runs
  import opened Safety
  import opened Refinement
  import opened Persistence
  import opened Replicas
  import opened Reordering
  import opened Agreement

  // ------------------------------------------------------------------ stars

  /** A genesis and user vertices right on it. */
  ghost predicate Star(vs: Vertices, g: TxHash) {
    && g in vs && ProtocolGenesis(vs[g]) && vs[g].id == g
    && forall v {:trigger vs[v]} :: v in vs && v != g ==> OnGenesis(vs[v], v, g)
  }

  ghost predicate OnGenesis(tx: DagTransaction, v: TxHash, g: TxHash) {
    && tx.id == v && Checked(tx) && tx.Cost() <= U64_MAX && g != NULL_PARENT && tx.parent1 == g && tx.parent2 == g
  }

  lemma StarTopological(vs: Vertices, g: TxHash, s: seq<TxHash>)
    requires Star(vs, g) && NoDup(s) && s != [] && s[0] == g && forall i :: 0 <= i < |s| ==> s[i] in vs
    ensures Topological(vs, s)
  {
    forall i | 0 <= i < |s| ensures InPlace(vs, s, i) {
      if i > 0 {
        assert s[i] != g && OnGenesis(vs[s[i]], s[i], g);
        assert s[..i][0] == g;
      }
    }
  }

  lemma StarClosure(vs: Vertices, g: TxHash, v: TxHash)
    requires Star(vs, g) && v in vs
    ensures Closure(vs, v) <= {v, g}
    ensures v != g ==> ProperAncestors(vs, vs[v]) <= {g}
    ensures v == g ==> ProperAncestors(vs, vs[v]) == {}
  {
    hide Closure, Reach;
    assert ParentClosed(vs, {v, g}) && ParentClosed(vs, {g}) && ParentClosed(vs, {});
    ClosureLeast(vs, v, {v, g});
    ParentsListed(vs[v]);
    ReachLeast(vs, Parents(vs[v]), if v == g then {} else {g});
  }

  lemma StarWithin(vs: Vertices, g: TxHash)
    requires Star(vs, g)
    ensures WithinBound(vs)
  {
    hide Star, ProperAncestors;
    forall v | v in vs ensures |ProperAncestors(vs, vs[v])| <= ANCESTOR_WALK_BOUND {
      StarClosure(vs, g, v);
      SubsetSmaller(ProperAncestors(vs, vs[v]), {g});
    }
  }

  /** Every order of a star that starts with the genesis is the attach order of a replica. */
  lemma StarReplica(vs: Vertices, g: TxHash, f: map<Address, nat>, s: seq<TxHash>) returns (d: Dag)
    requires Star(vs, g) && NoDup(s) && s != [] && s[0] == g && ToSet(s) == vs.Keys && Room(f, |s|) && |s| < U64_MAX
    requires Positive(f)
    ensures Replica(d) && d.graph.vertices == vs && d.graph.order == s && d.faucet == f && Restartable(d, vs[g])
  {
    hide WithinBound, Topological, Grown, Checked;
    assert forall i :: 0 <= i < |s| ==> s[i] in ToSet(s);
    StarTopological(vs, g, s);
    StarWithin(vs, g);
    var graph := OrderBuilds(vs, s);
    d := Dag(graph, Baseline(f), f, map[]);
    forall v | v in vs ensures vs[v].Cost() <= U64_MAX {}
    GrownTopological(graph);
  }

  /** A star replica's rebuild as the end of a run. */
  lemma StarRun(d: Dag, genesis: DagTransaction) returns (steps: seq<Step>)
    requires Replica(d) && Restartable(d, genesis)
    ensures ProtocolGenesis(genesis) && AllowedRun(WithGenesis(genesis), steps)
    ensures Run(WithGenesis(genesis), steps) == Rebuild(d).0
    ensures Run(WithGenesis(genesis), steps).graph == d.graph && Run(WithGenesis(genesis), steps).faucet == d.faucet
  {
    hide Replica, Run, AllowedRun, Rebuild;
    steps := EveryRebuildReached(d, genesis);
  }

  /** In a star a vertex other than the genesis is approved by itself alone. */
  lemma StarApprovers(vs: Vertices, g: TxHash, v: TxHash)
    requires Star(vs, g) && v in vs && v != g
    ensures Approvers(vs, v) == {v}
  {
    hide Closure, Star;
    ReachesSelf(vs, v);
    SelfCloses(vs, v);
    forall u | u in vs && v in Closure(vs, u) ensures u == v { StarClosure(vs, g, u); }
  }

  lemma SelfCloses(vs: Vertices, v: TxHash)
    requires v in vs
    ensures v in Closure(vs, v)
  {
    ReachesSelf(vs, v);
  }

  // ------------------------------------------------------------ nonce order

  /** A transfer on the genesis, without relays. */
  function Pay(id: TxHash, sender: Address, recipient: Address, amount: u64, nonce: u64): DagTransaction {
    DagTransaction(id, 1, 1, sender, recipient, amount, FIXED_TRANSACTION_FEE, nonce, true, true, [], [])
  }

  function Spend(id: TxHash, sender: Address, nonce: u64): DagTransaction {
    Pay(id, sender, sender, 0, nonce)
  }

  /** Nonces 0 and 1 of one sender, side by side on the genesis. */
  const PAIR: Vertices := map[1 := GENESIS, 2 := Spend(2, 8, 0), 3 := Spend(3, 8, 1)]

  const PURSE: map<Address, nat> := map[8 := 1_000_000]

  lemma PairCovered()
    ensures Covered(PAIR, {}, PURSE) && Room(PURSE, 3) && Positive(PURSE) && Star(PAIR, 1)
  {
    hide Income, Room, Positive, Star;
    PairPurse();
    forall v | v in PAIR && Survivor(PAIR, {}, v)
      ensures Sum(Bill(PAIR, {}, v)) <= At(PURSE, PAIR[v].sender) + Sum(Income(PAIR, {}, v))
    {
      PairBill(v);
    }
  }

  lemma PairPurse()
    ensures Room(PURSE, 3) && Positive(PURSE) && Star(PAIR, 1)
  {
    PurseRoom(8);
  }

  lemma PairBill(v: TxHash)
    requires v in PAIR && Survivor(PAIR, {}, v)
    ensures Sum(Bill(PAIR, {}, v)) <= 2_000 && PAIR[v].sender == 8
  {
    var none: map<TxHash, nat> := map[];
    var costs: map<TxHash, nat> := none[2 := 1_000][3 := 1_000];
    assert Sum(none) == 0;
    SumUpdate(none, 2, 1_000);
    SumUpdate(none[2 := 1_000], 3, 1_000);
    SumBelow(Bill(PAIR, {}, v), costs);
  }

  lemma PairLosers(d: Dag)
    requires d.graph.vertices == PAIR
    ensures LosersOf(d) == {}
  {
    hide Losers;
    LosersRivals(d);
  }

  lemma PairFunds(d: Dag)
    requires d.graph.vertices == PAIR && d.faucet == PURSE && LosersOf(d) == {} && Covered(PAIR, {}, PURSE)
    ensures Funds(d)
  {}

  lemma PairPrecedes()
    ensures Precedes(PAIR, {}, 2, 3) && Rooted(PAIR, {}, 2)
  {
    hide Closure;
  }

  lemma PairDropped(d: Dag, s: seq<TxHash>)
    requires Replica(d) && Funds(d) && LosersOf(d) == {} && d.graph.vertices == PAIR && d.graph.order == s
    requires s == [1, 2, 3] || s == [1, 3, 2]
    ensures DroppedBy(d) == if s == [1, 2, 3] then {} else {3}
  {
    hide Replica, Funds, LosersOf, DroppedBy, Precedes, Rooted, Prepared;
    PairPrecedes();
    DroppedUser(d);
    RebuildRule(d);
    if s == [1, 2, 3] {
      OrderDecides(d, 2, 3, 2, 1);
      assert s[1] == 2;
    } else {
      OrderDecides(d, 2, 3, 1, 2);
      assert s[2] == 2;
    }
  }

  /** What a rebuild makes of the pair attached in the order `s`. */
  lemma PairReplica(s: seq<TxHash>) returns (d: Dag)
    requires s == [1, 2, 3] || s == [1, 3, 2]
    ensures Replica(d) && Restartable(d, GENESIS) && d.graph.vertices == PAIR && d.graph.order == s && d.faucet == PURSE
    ensures LosersOf(d) == {} && Funds(d)
    ensures DroppedBy(d) == if s == [1, 2, 3] then {} else {3}
  {
    hide Restartable, Star, DroppedBy, Covered, Room, Positive, LosersOf;
    PairCovered();
    d := StarReplica(PAIR, 1, PURSE, s);
    PairLosers(d);
    PairFunds(d);
    PairDropped(d, s);
  }

  /** With more than enough funds, the same two spends, credits and rebuild on two nodes: the one
      that attached nonce 1 first loses it; the other applies both. */
  lemma NonceOrderShows() returns (steps: seq<Step>, steps': seq<Step>)
    ensures ProtocolGenesis(GENESIS) && AllowedRun(WithGenesis(GENESIS), steps)
    ensures AllowedRun(WithGenesis(GENESIS), steps')
    ensures var (r, q) := (Run(WithGenesis(GENESIS), steps), Run(WithGenesis(GENESIS), steps'));
      && r.graph.vertices == q.graph.vertices == PAIR && r.faucet == q.faucet
      && r.conflicts.Keys == {} && q.conflicts.Keys == {3}
  {
    hide Replica, Restartable, Run, AllowedRun, Funds, LosersOf;
    var d := PairReplica([1, 2, 3]);
    var e := PairReplica([1, 3, 2]);
    steps := StarRun(d, GENESIS);
    steps' := StarRun(e, GENESIS);
  }

  // ------------------------------------------------------ overlapping spends

  /** The ledger after a first spend, which may have been refused. */
  function AfterFirst(f: map<Address, nat>, tx: DagTransaction): Ledger {
    var (l, o) := ApplyEffects(Baseline(f), tx);
    if o == Ok then l else Baseline(f)
  }

  /** What replaying two spends leaves out. */
  function LeftOut(f: map<Address, nat>, x: DagTransaction, y: DagTransaction): seq<TxHash> {
    (if ApplyEffects(Baseline(f), x).1 == Ok then [] else [x.id])
    + if ApplyEffects(AfterFirst(f, x), y).1 == Ok then [] else [y.id]
  }

  /** The genesis and two spends on it that do not share sender and nonce. */
  ghost predicate Two(vs: Vertices, f: map<Address, nat>, x: TxHash, y: TxHash) {
    && Star(vs, 1) && vs.Keys == {1, x, y} && 1 != x && 1 != y && x != y && vs[1] == GENESIS
    && !Rivals(vs, x, y) && Positive(f) && Room(f, 3)
  }

  lemma RivalsSymmetric(vs: Vertices, x: TxHash, y: TxHash)
    ensures Rivals(vs, x, y) <==> Rivals(vs, y, x)
  {}

  lemma TwoLosers(d: Dag, f: map<Address, nat>, x: TxHash, y: TxHash)
    requires Two(d.graph.vertices, f, x, y)
    ensures LosersOf(d) == {}
  {
    RivalsSymmetric(d.graph.vertices, x, y);
    LosersRivals(d);
  }

  lemma ReplayTwo(vs: Vertices, f: map<Address, nat>, x: TxHash, y: TxHash)
    requires Two(vs, f, x, y) && !Replay(vs, [1, x, y], {}, Baseline(f), 3).failed
    ensures Replay(vs, [1, x, y], {}, Baseline(f), 3).extra == LeftOut(f, vs[x], vs[y])
  {
    hide ApplyEffects, Room, Positive;
    var order := [1, x, y];
    assert Replay(vs, order, {}, Baseline(f), 0) == Replayed(Baseline(f), [], false);
    assert Replay(vs, order, {}, Baseline(f), 1) == Replayed(Baseline(f), [], false);
    assert !Replay(vs, order, {}, Baseline(f), 2).failed;
    assert OnGenesis(vs[x], x, 1) && OnGenesis(vs[y], y, 1);
  }

  /** The two spends attached in one order and then in the other, as replicas. */
  lemma TwoReplica(vs: Vertices, f: map<Address, nat>, x: TxHash, y: TxHash) returns (d: Dag)
    requires Two(vs, f, x, y)
    ensures Replica(d) && Restartable(d, GENESIS) && d.graph.vertices == vs && d.graph.order == [1, x, y]
    ensures d.faucet == f
    ensures DroppedBy(d) == ToSet(LeftOut(f, vs[x], vs[y]))
  {
    hide Star, Restartable, Replica, LeftOut, Room, Positive, Rivals;
    d := StarReplica(vs, 1, f, [1, x, y]);
    TwoLosers(d, f, x, y);
    hide Two;
    TwoDropped(d, f, x, y);
  }

  lemma TwoDropped(d: Dag, f: map<Address, nat>, x: TxHash, y: TxHash)
    requires Replica(d) && Two(d.graph.vertices, f, x, y) && d.graph.order == [1, x, y] && d.faucet == f
    requires LosersOf(d) == {}
    ensures DroppedBy(d) == ToSet(LeftOut(f, d.graph.vertices[x], d.graph.vertices[y]))
  {
    hide Grown, WithinBound, AllOffered, Losers, LeftOut, Replay, Star, Rivals, Positive;
    RebuildSettles(d);
    ReplayTwo(d.graph.vertices, f, x, y);
  }

  /** A first spend that the faucet covers: applied, the rest of the money kept or moved, and the
      full subsidy and the fee back at its sender. */
  lemma FirstPays(f: map<Address, nat>, tx: DagTransaction)
    requires Room(f, 3) && tx.fee == FIXED_TRANSACTION_FEE && tx.nonce == 0 && tx.Cost() <= At(f, tx.sender) <= U64_MAX
    requires tx.relayNodes == [] && tx.relayProofs == [] && tx.sender != tx.recipient
    ensures ApplyEffects(Baseline(f), tx).1 == Ok
    ensures var l := AfterFirst(f, tx);
      && Explained(l, f, [tx], map[]) && Sound(l, f)
      && At(l.balances, tx.sender) == At(f, tx.sender) + INITIAL_TX_SUBSIDY - tx.amount && At(l.nonces, tx.sender) == 1
      && At(l.balances, tx.recipient) == At(f, tx.recipient) + tx.amount && At(l.nonces, tx.recipient) == 0
  {
    hide ApplyEffects, SubsidyAt, Emitted;
    ReplayStart(f);
    assert Emitted(0) == 0 by { EmissionSchedule(0); }
    Affordable(Baseline(f), f, [], tx);
    ExplainedStep(Baseline(f), f, [], map[], tx);
    SoundStep(Baseline(f), f, tx);
    assert [] + [tx] == [tx];
    ApplyAt(Baseline(f), tx, tx.sender);
    ApplyAt(Baseline(f), tx, tx.recipient);
    FirstEraSubsidy(0);
    LonePay(tx, 0);
    LoneReceipt(tx, 0);
  }

  lemma LoneReceipt(tx: DagTransaction, k: nat)
    requires tx.relayNodes == [] && tx.relayProofs == [] && tx.sender != tx.recipient
    ensures Delta(tx, k, tx.recipient) == tx.amount
  {
    hide SubsidyAt;
    assert tx.ProvenRelayNodes() == [];
  }

  /** 600,000 twice out of a purse of 1,000,000. */
  const OVERLAP: Vertices := map[1 := GENESIS, 2 := Pay(2, 8, 9, 600_000, 0), 3 := Pay(3, 8, 9, 600_000, 1)]

  lemma PurseRoom(a: Address)
    ensures Room(map[a := 1_000_000], 3) && Positive(map[a := 1_000_000])
  {
    var none: map<Address, nat> := map[];
    assert Sum(none) == 0;
    SumUpdate(none, a, 1_000_000);
    assert none[a := 1_000_000] == map[a := 1_000_000];
  }

  /** In either order the second nonce is what the money does not reach. */
  lemma OverlapLeftOut()
    ensures LeftOut(PURSE, OVERLAP[2], OVERLAP[3]) == [3] && LeftOut(PURSE, OVERLAP[3], OVERLAP[2]) == [3]
  {
    hide Mint;
    PurseRoom(8);
    FirstPays(PURSE, OVERLAP[2]);
    assert ApplyEffects(AfterFirst(PURSE, OVERLAP[2]), OVERLAP[3]).1 == Err(InsufficientBalance);
    assert ApplyEffects(Baseline(PURSE), OVERLAP[3]).1 == Err(DoubleSpend(1));
  }

  /** Two spends of one sender that overlap in balance, attached in either order: both nodes drop
      the higher nonce, although it outranks the lower one. */
  lemma OverlapShows() returns (steps: seq<Step>, steps': seq<Step>)
    ensures ProtocolGenesis(GENESIS) && AllowedRun(WithGenesis(GENESIS), steps)
    ensures AllowedRun(WithGenesis(GENESIS), steps')
    ensures var (r, q) := (Run(WithGenesis(GENESIS), steps), Run(WithGenesis(GENESIS), steps'));
      && r.graph.vertices == q.graph.vertices == OVERLAP && r.faucet == q.faucet == PURSE
      && r.graph.order == [1, 2, 3] && q.graph.order == [1, 3, 2]
      && r.conflicts.Keys == q.conflicts.Keys == {3}
      && Outranks(r.graph.weights, 3, 2) && Outranks(q.graph.weights, 3, 2)
  {
    hide Replica, Restartable, Run, AllowedRun, LeftOut, Two;
    OverlapTwo();
    OverlapLeftOut();
    var d := TwoReplica(OVERLAP, PURSE, 2, 3);
    var e := TwoReplica(OVERLAP, PURSE, 3, 2);
    steps := StarRun(d, GENESIS);
    steps' := StarRun(e, GENESIS);
    OverlapRank(d);
    OverlapRank(e);
  }

  lemma OverlapTwo()
    ensures Two(OVERLAP, PURSE, 2, 3) && Two(OVERLAP, PURSE, 3, 2) && Star(OVERLAP, 1)
  {
    PurseRoom(8);
  }

  lemma OverlapRank(e: Dag)
    requires Replica(e) && e.graph.vertices == OVERLAP
    ensures Outranks(e.graph.weights, 3, 2)
  {
    hide Approvers, Grown, WithinBound, Star;
    OverlapTwo();
    WeightsExact(e.graph);
    StarApprovers(OVERLAP, 1, 2);
    StarApprovers(OVERLAP, 1, 3);
  }

  /** 9 pays 8, and 8, who has nothing else, pays 7. */
  const RECEIPT: Vertices := map[1 := GENESIS, 2 := Pay(2, 9, 8, 500_000, 0), 3 := Pay(3, 8, 7, 400_000, 0)]

  const DONOR: map<Address, nat> := map[9 := 1_000_000]

  lemma ReceiptLeftOut()
    ensures LeftOut(DONOR, RECEIPT[2], RECEIPT[3]) == [] && LeftOut(DONOR, RECEIPT[3], RECEIPT[2]) == [3]
  {
    hide Mint, Emitted;
    PurseRoom(9);
    FirstPays(DONOR, RECEIPT[2]);
    var l := AfterFirst(DONOR, RECEIPT[2]);
    NeverOverflows(l, DONOR, RECEIPT[3]);
    assert ApplyEffects(l, RECEIPT[3]).1 == Ok;
    assert ApplyEffects(Baseline(DONOR), RECEIPT[3]).1 == Err(InsufficientBalance);
  }

  /** A spend of received money that does not approve the vertex it comes from: one attach order
      applies it, the other drops it, though no nonce is open. */
  lemma ReceiptOrderShows() returns (steps: seq<Step>, steps': seq<Step>)
    ensures ProtocolGenesis(GENESIS) && AllowedRun(WithGenesis(GENESIS), steps)
    ensures AllowedRun(WithGenesis(GENESIS), steps')
    ensures var (r, q) := (Run(WithGenesis(GENESIS), steps), Run(WithGenesis(GENESIS), steps'));
      && r.graph.vertices == q.graph.vertices == RECEIPT && r.faucet == q.faucet == DONOR
      && r.conflicts.Keys == {} && q.conflicts.Keys == {3} && Decided(RECEIPT, {})
  {
    hide Replica, Restartable, Run, AllowedRun, LeftOut, Two, Decided;
    ReceiptTwo();
    ReceiptLeftOut();
    var d := TwoReplica(RECEIPT, DONOR, 2, 3);
    var e := TwoReplica(RECEIPT, DONOR, 3, 2);
    steps := StarRun(d, GENESIS);
    steps' := StarRun(e, GENESIS);
  }

  lemma ReceiptTwo()
    ensures Two(RECEIPT, DONOR, 2, 3) && Two(RECEIPT, DONOR, 3, 2) && Decided(RECEIPT, {})
  {
    hide Closure, Rooted;
    PurseRoom(9);
  }

  // ------------------------------------------------------ across a halving

  /** n senders, each with one spend on the genesis. */
  function Crowd(n: nat): Vertices {
    map i: nat | 1 <= i <= n + 1 :: if i == 1 then GENESIS else Spend(i, i, 0)
  }

  /** Just the fee for each of them. */
  function Coins(n: nat): map<Address, nat> {
    map i | i in Crowd(n) && i != 1 :: FIXED_TRANSACTION_FEE
  }

  /** The ids in order, and with the last two swapped. */
  function Straight(n: nat): seq<TxHash> {
    seq(n + 1, i requires 0 <= i => i + 1)
  }

  function Swapped(n: nat): seq<TxHash>
    requires n >= 2
  {
    seq(n + 1, i requires 0 <= i => if i == n - 1 then n + 1 else if i == n then n else i + 1)
  }

  lemma {:induction false} CoinsSum(n: nat)
    ensures Sum(Coins(n)) == FIXED_TRANSACTION_FEE * n
  {
    if n == 0 {
      assert Coins(0) == map[];
    } else {
      hide Coins, Sum;
      var m := Coins(n - 1);
      CoinsSum(n - 1);
      CoinsMore(n);
      SumUpdate<Address>(m, n + 1, FIXED_TRANSACTION_FEE);
    }
  }

  lemma CoinsMore(n: nat)
    requires n > 0
    ensures Coins(n) == Coins(n - 1)[n + 1 := FIXED_TRANSACTION_FEE] && At(Coins(n - 1), n + 1) == 0
  {}

  lemma CrowdStar(n: nat)
    ensures Star(Crowd(n), 1) && Positive(Coins(n))
  {}

  lemma CrowdCovered(n: nat)
    ensures Covered(Crowd(n), {}, Coins(n))
  {
    var vs, none: map<TxHash, nat> := Crowd(n), map[];
    assert Sum(none) == 0;
    forall v | v in vs && Survivor(vs, {}, v)
      ensures Sum(Bill(vs, {}, v)) <= At(Coins(n), vs[v].sender) + Sum(Income(vs, {}, v))
    {
      assert Bill(vs, {}, v) == none[v := FIXED_TRANSACTION_FEE];
      SumUpdate(none, v, FIXED_TRANSACTION_FEE);
    }
  }

  lemma CrowdOrderly(n: nat)
    ensures Orderly(Crowd(n))
  {
    hide Closure, Precedes;
  }

  /** A listing of the crowd, genesis first. */
  ghost predicate Arrangement(n: nat, s: seq<TxHash>) {
    NoDup(s) && |s| == n + 1 && s[0] == 1 && ToSet(s) == Crowd(n).Keys
  }

  lemma Arrangements(n: nat)
    requires n >= 2
    ensures Arrangement(n, Straight(n)) && Arrangement(n, Swapped(n))
  {
    var s, t := Straight(n), Swapped(n);
    forall x | x in Crowd(n) ensures x in s && x in t {
      assert s[x - 1] == x;
      assert t[if x == n then n else if x == n + 1 then n - 1 else x - 1] == x;
    }
  }

  /** Whatever the order, a rebuild of the crowd drops nobody. */
  lemma CrowdReplica(n: nat, s: seq<TxHash>) returns (d: Dag)
    requires Arrangement(n, s) && n <= 200_000_000
    ensures Replica(d) && Restartable(d, GENESIS) && d.graph.vertices == Crowd(n) && d.graph.order == s
    ensures d.faucet == Coins(n)
    ensures DroppedBy(d) == {}
  {
    hide Restartable, Star, DroppedBy, Covered, Positive, LosersOf, Crowd, Coins, Orderly;
    CoinsSum(n);
    CrowdStar(n);
    CrowdCovered(n);
    CrowdOrderly(n);
    assert Crowd(n)[1] == GENESIS by { FirstOfCrowd(n); }
    d := StarReplica(Crowd(n), 1, Coins(n), s);
    OrderlyLosers(d);
    NothingDroppedExact(d);
    TwinSelf(d);
  }

  lemma FirstOfCrowd(n: nat)
    ensures 1 in Crowd(n) && Crowd(n)[1] == GENESIS
  {}

  lemma OrderlyLosers(d: Dag)
    requires Orderly(d.graph.vertices)
    ensures LosersOf(d) == {} && (Covered(d.graph.vertices, {}, d.faucet) ==> Funds(d))
  {
    LosersRivals(d);
  }

  lemma {:induction false} AppliedTail(n: nat, s: seq<TxHash>, k: nat)
    requires Arrangement(n, s) && 1 <= k <= |s|
    ensures var h := Applied(Crowd(n), s, {}, k);
      |h| == k - 1 && forall i :: 0 <= i < k - 1 ==> h[i] == Spend(s[i + 1], s[i + 1], 0)
  {
    assert s[k - 1] in ToSet(s);
    if k > 1 { AppliedTail(n, s, k - 1); }
  }

  /** An address that only one applied vertex touches. */
  lemma {:induction false} LoneNet(h: seq<DagTransaction>, i: nat, a: Address)
    requires forall j :: 0 <= j < |h| && j != i ==> Untouched(h[j], a)
    ensures Net(h, a) == if i < |h| then Delta(h[i], i, a) else 0
  {
    hide Delta;
    if h != [] {
      LoneNet(h[..|h| - 1], i, a);
      if i != |h| - 1 { UntouchedDelta(h[|h| - 1], |h| - 1, a); }
    }
  }

  ghost predicate Untouched(tx: DagTransaction, a: Address) {
    tx.relayNodes == [] && tx.relayProofs == [] && a != tx.sender && a != tx.recipient
  }

  lemma UntouchedDelta(tx: DagTransaction, k: nat, a: Address)
    requires Untouched(tx, a)
    ensures Delta(tx, k, a) == 0
  {
    NothingFor(tx, k, a);
  }

  /** Each member of the crowd ends with its fee back and the subsidy of its place. */
  lemma CrowdBalance(n: nat, s: seq<TxHash>, d: Dag, i: nat)
    requires Arrangement(n, s) && n <= 200_000_000 && i < n
    requires Replica(d) && d.graph.vertices == Crowd(n) && d.graph.order == s && d.faucet == Coins(n)
    requires DroppedBy(d) == {}
    ensures At(Rebuild(d).0.ledger.balances, s[i + 1]) == FIXED_TRANSACTION_FEE + SubsidyAt(i)
  {
    hide Grown, WithinBound, AllOffered, Rebuild, SubsidyAt, Applied, InNonceOrder, Sound, Crowd, ToSet;
    RebuildSettles(d);
    var r, a := Rebuild(d).0, s[i + 1];
    assert r.conflicts.Keys + {} == {};
    AppliedTail(n, s, |s|);
    var h := AppliedAll(r.graph, {});
    assert At(r.ledger.balances, a) == At(Coins(n), a) + Net(h, a);
    forall j | 0 <= j < |h| && j != i ensures Untouched(h[j], a) {}
    LoneNet(h, i, a);
    LonePay(h[i], i);
    CoinOf(n, s, i + 1);
  }

  lemma CoinOf(n: nat, s: seq<TxHash>, i: nat)
    requires Arrangement(n, s) && 0 < i < |s|
    ensures At(Coins(n), s[i]) == FIXED_TRANSACTION_FEE
  {
    assert s[i] in ToSet(s);
  }

  /** The same vertices and faucet, no conflict on either node, every nonce the same: attached
      in another order, the vertex at the halving leaves its sender 50,000 units poorer. */
  lemma HalvingOrderShows() returns (steps: seq<Step>, steps': seq<Step>, a: Address)
    ensures ProtocolGenesis(GENESIS) && AllowedRun(WithGenesis(GENESIS), steps)
    ensures AllowedRun(WithGenesis(GENESIS), steps')
    ensures var (r, q) := (Run(WithGenesis(GENESIS), steps), Run(WithGenesis(GENESIS), steps'));
      && r.graph.vertices == q.graph.vertices && r.faucet == q.faucet && r.conflicts.Keys == q.conflicts.Keys == {}
      && SameNonces(r, q)
      && At(r.ledger.balances, a) == At(q.ledger.balances, a) + 50_000
  {
    hide Replica, Restartable, Run, AllowedRun, Rebuild, Crowd, Coins, Arrangement, SameNonces;
    hide SubsidyAt, ProtocolGenesis, WithGenesis;
    var n: nat := TX_HALVING_INTERVAL + 1;
    Arrangements(n);
    var d := CrowdReplica(n, Straight(n));
    var e := CrowdReplica(n, Swapped(n));
    steps := StarRun(d, GENESIS);
    steps' := StarRun(e, GENESIS);
    a := n;
    CrowdBalance(n, Straight(n), d, n - 2);
    CrowdBalance(n, Swapped(n), e, n - 1);
    SubsidiesAround();
    assert Twin(d, e);
    NoncesDecide(d, e);
  }

  lemma SubsidiesAround()
    ensures SubsidyAt(TX_HALVING_INTERVAL - 1) == SubsidyAt(TX_HALVING_INTERVAL) + 50_000
  {
    hide SubsidyAt;
    FirstEraSubsidy(TX_HALVING_INTERVAL - 1);
    EmissionSchedule(TX_HALVING_INTERVAL);
    ShiftedSubsidies();
  }
}
