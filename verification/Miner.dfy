/** Parent selection (src/dag/engine.rs) and the miner tick (src/kron/miner.rs), for every
    random choice and every iteration order of a hash set. */
module Miner {
  import opened Basics
  import opened Economics
  import opened Transactions
  import opened Ledgers
  import opened Graphs
  import opened Building
  import opened Ancestry
  import opened Weights
  import opened History
  import opened Dags
  import opened Settlement
  import opened Steps
  import opened Safety
  import opened Admission
  import opened Acceptance
  import opened Engine

  const TIP_WALK_BOUND: nat := 256

  // ---------------------------------------------------------------- tickets

  /** `weights.get(h).unwrap_or(1).max(1)` */
  function Tickets(weights: map<TxHash, nat>, h: TxHash): (w: nat)
    ensures w >= 1
  {
    if h in weights && weights[h] >= 1 then weights[h] else 1
  }

  function TicketSum(weights: map<TxHash, nat>, kids: seq<TxHash>): nat {
    if kids == [] then 0 else TicketSum(weights, kids[..|kids| - 1]) + Tickets(weights, kids[|kids| - 1])
  }

  /** The child that holds `ticket`; past the end, the first one. */
  function Draw(weights: map<TxHash, nat>, kids: seq<TxHash>, ticket: nat): TxHash
    requires kids != []
  {
    var k := Holder(weights, kids, ticket, 0);
    if k < |kids| then kids[k] else kids[0]
  }

  /** Index at which the running ticket falls below a child's share. */
  function Holder(weights: map<TxHash, nat>, kids: seq<TxHash>, ticket: nat, k: nat): (r: nat)
    requires k <= |kids|
    ensures k <= r <= |kids|
    decreases |kids| - k
  {
    if k == |kids| then k
    else if ticket < Tickets(weights, kids[k]) then k
    else Holder(weights, kids, ticket - Tickets(weights, kids[k]), k + 1)
  }

  lemma SumMore(weights: map<TxHash, nat>, kids: seq<TxHash>, k: nat)
    requires k < |kids|
    ensures TicketSum(weights, kids[..k + 1]) == TicketSum(weights, kids[..k]) + Tickets(weights, kids[k])
  {
    assert kids[..k + 1][..k] == kids[..k];
  }

  /** The ticket range is cut into consecutive shares, one per child. */
  lemma {:induction false} HolderExact(weights: map<TxHash, nat>, kids: seq<TxHash>, ticket: nat, k: nat, j: nat)
    requires k <= |kids| && j < |kids|
    ensures var base := TicketSum(weights, kids[..k]);
      Holder(weights, kids, ticket, k) == j <==>
        k <= j && TicketSum(weights, kids[..j]) <= base + ticket < TicketSum(weights, kids[..j + 1])
    decreases |kids| - k
  {
    hide Tickets;
    if k < |kids| {
      SumMore(weights, kids, k);
      SumMore(weights, kids, j);
      if ticket < Tickets(weights, kids[k]) {
        if j > k { SumGrows(weights, kids, k + 1, j); }
      } else {
        HolderExact(weights, kids, ticket - Tickets(weights, kids[k]), k + 1, j);
      }
    }
  }

  lemma {:induction false} SumGrows(weights: map<TxHash, nat>, kids: seq<TxHash>, i: nat, j: nat)
    requires i <= j <= |kids|
    ensures TicketSum(weights, kids[..i]) <= TicketSum(weights, kids[..j])
    decreases j
  {
    if i < j {
      SumMore(weights, kids, j - 1);
      SumGrows(weights, kids, i, j - 1);
    }
  }

  function Interval(lo: nat, n: nat): (r: set<nat>)
    ensures |r| == n && forall t :: t in r <==> lo <= t < lo + n
  {
    if n == 0 then {} else Interval(lo, n - 1) + {lo + n - 1}
  }

  /** The tickets that draw the j-th child are the j-th share of the range. */
  lemma DrawExact(weights: map<TxHash, nat>, kids: seq<TxHash>, j: nat, t: nat)
    requires NoDup(kids) && j < |kids| && t < TicketSum(weights, kids)
    ensures Draw(weights, kids, t) == kids[j] <==>
      TicketSum(weights, kids[..j]) <= t < TicketSum(weights, kids[..j]) + Tickets(weights, kids[j])
  {
    hide Tickets, Holder, Draw;
    assert TicketSum(weights, kids[..0]) == 0;
    SumMore(weights, kids, j);
    DrawHolds(weights, kids, t);
    HolderExact(weights, kids, t, 0, j);
  }

  /** The tickets that draw `h`. */
  ghost function DrawnBy(weights: map<TxHash, nat>, kids: seq<TxHash>, h: TxHash): set<nat>
    requires kids != []
  {
    set t | 0 <= t < TicketSum(weights, kids) && Draw(weights, kids, t) == h
  }

  /** Each child holds exactly max(weight, 1) of the tickets, whatever the order. */
  lemma TicketsExact(weights: map<TxHash, nat>, kids: seq<TxHash>, j: nat)
    requires NoDup(kids) && j < |kids|
    ensures |DrawnBy(weights, kids, kids[j])|
         == if kids[j] in weights && weights[kids[j]] >= 1 then weights[kids[j]] else 1
  {
    var total, lo, n := TicketSum(weights, kids), TicketSum(weights, kids[..j]), Tickets(weights, kids[j]);
    ShareInside(weights, kids, j);
    hide Tickets, Draw, TicketSum, Interval;
    forall t | 0 <= t < total ensures Draw(weights, kids, t) == kids[j] <==> lo <= t < lo + n {
      DrawExact(weights, kids, j, t);
    }
    assert DrawnBy(weights, kids, kids[j]) == Interval(lo, n);
  }

  /** While no closure exceeds the walk bound, each child of a vertex of a reachable graph holds as
      many tickets as vertices approve it, itself included, whatever the iteration order. */
  lemma ApproversDraw(g: Graph, parent: TxHash, kids: seq<TxHash>, j: nat)
    requires Grown(g) && |g.order| < U64_MAX && WithinBound(g.vertices)
    requires parent in g.children && NoDup(kids) && ToSet(kids) == g.children[parent] && j < |kids|
    ensures kids[j] in g.vertices && IsParent(g.vertices[kids[j]], parent)
    ensures |DrawnBy(g.weights, kids, kids[j])| == |Approvers(g.vertices, kids[j])|
  {
    GrownShaped(g);
    WeightsExact(g);
    TicketsExact(g.weights, kids, j);
    hide Grown, DrawnBy, WithinBound;
    assert kids[j] in ToSet(kids);
    WeightPositive(g, kids[j]);
  }

  lemma WeightPositive(g: Graph, v: TxHash)
    requires Grown(g) && |g.order| < U64_MAX && v in g.vertices
    ensures v in g.weights && g.weights[v] >= 1
  {
    BuildWeights(Listed(g));
  }

  lemma ShareInside(weights: map<TxHash, nat>, kids: seq<TxHash>, j: nat)
    requires j < |kids|
    ensures TicketSum(weights, kids[..j]) + Tickets(weights, kids[j]) <= TicketSum(weights, kids)
  {
    hide Tickets;
    assert kids[..|kids|] == kids;
    SumMore(weights, kids, j);
    SumGrows(weights, kids, j + 1, |kids|);
  }

  /** A ticket below the total always has a holder. */
  lemma DrawHolds(weights: map<TxHash, nat>, kids: seq<TxHash>, t: nat)
    requires kids != [] && t < TicketSum(weights, kids)
    ensures Holder(weights, kids, t, 0) < |kids| && Draw(weights, kids, t) == kids[Holder(weights, kids, t, 0)]
  {
    hide Tickets;
    assert kids[..|kids|] == kids && TicketSum(weights, kids[..0]) == 0;
    if Holder(weights, kids, t, 0) == |kids| { NoHolder(weights, kids, t, 0); }
  }

  lemma {:induction false} NoHolder(weights: map<TxHash, nat>, kids: seq<TxHash>, t: nat, k: nat)
    requires k <= |kids| && Holder(weights, kids, t, k) == |kids|
    ensures TicketSum(weights, kids[..k]) + t >= TicketSum(weights, kids)
    decreases |kids| - k
  {
    hide Tickets;
    if k == |kids| {
      assert kids[..k] == kids;
    } else {
      SumMore(weights, kids, k);
      NoHolder(weights, kids, t - Tickets(weights, kids[k]), k + 1);
    }
  }

  /** Some order in which a hash set is iterated. */
  method IterationOrder(s: set<TxHash>) returns (order: seq<TxHash>)
    ensures NoDup(order) && ToSet(order) == s
  {
    order := [];
    var rest := s;
    while rest != {}
      invariant rest <= s && NoDup(order) && ToSet(order) == s - rest
      decreases rest
    {
      var h :| h in rest;
      assert h !in ToSet(order);
      ToSetMore(order, h);
      order := order + [h];
      rest := rest - {h};
    }
  }

  lemma ToSetMore(order: seq<TxHash>, h: TxHash)
    ensures ToSet(order + [h]) == ToSet(order) + {h}
  {}

  /** `h` is what some ticket below the (saturated) total draws in some order of `kids`. */
  ghost predicate Drawn(weights: map<TxHash, nat>, kids: set<TxHash>, h: TxHash) {
    exists order, ticket: nat :: order != [] && NoDup(order) && ToSet(order) == kids
      && ticket < TicketSum(weights, order) && ticket < U64_MAX && h == Draw(weights, order, ticket)
  }

  method PickWeightedChild(dag: KronDag, parent: TxHash) returns (next: Option<TxHash>)
    ensures next == None <==> parent !in dag.children || dag.children[parent] == {}
    ensures next.Some? ==> parent in dag.children && next.value in dag.children[parent]
    ensures next.Some? ==> Drawn(dag.weights, dag.children[parent], next.value)
  {
    if parent !in dag.children {
      return None;
    }
    var kids := dag.children[parent];
    if kids == {} {
      return None;
    }
    var order := IterationOrder(kids);
    ListsSome(order);
    var total := CountTickets(dag.weights, order);
    var ticket: nat :| ticket < total;
    var drawn := DrawChild(dag.weights, order, ticket);
    next := Some(drawn);
  }

  /** The saturating sum of the children's shares. */
  method CountTickets(weights: map<TxHash, nat>, order: seq<TxHash>) returns (total: nat)
    ensures total == if TicketSum(weights, order) > U64_MAX then U64_MAX else TicketSum(weights, order)
    ensures order != [] ==> total > 0
  {
    hide Tickets;
    total := 0;
    for i := 0 to |order|
      invariant total == if TicketSum(weights, order[..i]) > U64_MAX then U64_MAX else TicketSum(weights, order[..i])
      invariant i > 0 ==> total > 0
    {
      SumMore(weights, order, i);
      total := SatAdd(total, Tickets(weights, order[i]));
    }
    assert order[..|order|] == order;
  }

  method DrawChild(weights: map<TxHash, nat>, order: seq<TxHash>, ticket: nat) returns (h: TxHash)
    requires order != []
    ensures h == Draw(weights, order, ticket) && h in ToSet(order)
  {
    hide Tickets;
    var left := ticket;
    for i := 0 to |order|
      invariant Holder(weights, order, ticket, 0) == Holder(weights, order, left, i)
    {
      var w := Tickets(weights, order[i]);
      if left < w {
        return order[i];
      }
      left := left - w;
    }
    h := order[0];
  }

  lemma ListsSome(order: seq<TxHash>)
    ensures ToSet(order) != {} ==> order != []
  {}

  // -------------------------------------------------------------- the walk

  /** What tip selection needs of a valid graph. */
  ghost predicate Walkable(g: Graph) {
    && (g.tips == {} ==> g.genesis !in g.vertices)
    && g.tips <= g.vertices.Keys && g.children.Keys == g.vertices.Keys
    && (forall p {:trigger g.children[p]} :: p in g.children ==>
          g.children[p] <= g.vertices.Keys && (g.children[p] == {} ==> p in g.tips))
    && (g.tips != {} ==> g.genesis in g.vertices && g.genesis != NULL_PARENT && NULL_PARENT !in g.vertices)
  }

  lemma ValidWalkable(g: Graph)
    requires g == EMPTY || Grown(g)
    ensures Walkable(g)
  {
    if g != EMPTY {
      hide Grown, Shaped;
      GrownShaped(g);
      SomeTip(g);
      ChildlessIsTip(g);
      NullNot(g);
    }
  }

  lemma ChildlessIsTip(g: Graph)
    requires Shaped(g)
    ensures g.tips <= g.vertices.Keys && g.children.Keys == g.vertices.Keys
    ensures forall p {:trigger g.children[p]} :: p in g.children ==>
      g.children[p] <= g.vertices.Keys && (g.children[p] == {} ==> p in g.tips)
  {
    hide OrderOk, ParentsFirst, IsParent;
  }

  lemma NullNot(g: Graph)
    requires Shaped(g)
    ensures NULL_PARENT !in g.vertices
  {
    hide ParentsFirst, ChildrenOk, TipsOk;
  }

  /** The vertex attached last is a tip. */
  lemma SomeTip(g: Graph)
    requires Shaped(g) && g.order != []
    ensures g.tips != {}
  {
    hide OrderOk, ParentsFirst, ChildrenOk;
    var last := g.order[|g.order| - 1];
    NoChildren(g);
    assert last in g.tips;
  }

  lemma NoChildren(g: Graph)
    requires Shaped(g) && g.order != []
    ensures g.order[|g.order| - 1] in g.vertices && ChildrenOf(g.vertices, g.order[|g.order| - 1]) == {}
  {
    hide ChildrenOk, TipsOk, Closed;
    var last := g.order[|g.order| - 1];
    forall c | c in g.vertices ensures !IsParent(g.vertices[c], last) {
      assert c in ToSet(g.order);
      var i :| 0 <= i < |g.order| && g.order[i] == c;
      assert FirstAt(g.vertices, g.order, i);
      if i > 0 { assert last !in g.order[..i]; }
    }
  }

  method AnyTip(dag: KronDag) returns (tip: TxHash)
    ensures if dag.tips == {} then tip == NULL_PARENT else tip in dag.tips
  {
    if dag.tips == {} {
      return NULL_PARENT;
    }
    tip :| tip in dag.tips;
  }

  /** Each vertex of `path` is drawn among the children of the one before. */
  ghost predicate DrawnPath(g: Graph, path: seq<TxHash>) {
    path != [] && path[0] == g.genesis && forall i :: 0 <= i < |path| - 1 ==> DrawnNext(g, path[i], path[i + 1])
  }

  ghost predicate DrawnNext(g: Graph, parent: TxHash, child: TxHash) {
    parent in g.children && Drawn(g.weights, g.children[parent], child)
  }

  /** A walk from genesis along drawn children ends where there is no child; one that has taken
      256 steps ends at any tip. */
  ghost predicate WalkedTo(g: Graph, path: seq<TxHash>, tip: TxHash) {
    && DrawnPath(g, path) && |path| <= 257
    && if |path| <= 256 then tip == path[|path| - 1] && KidsOf(g.children, tip) == {} else tip in g.tips
  }

  method WalkToTip(dag: KronDag) returns (tip: TxHash, ghost path: seq<TxHash>)
    requires Walkable(dag.GraphView())
    ensures if dag.tips == {} then tip == NULL_PARENT else tip in dag.tips
    ensures dag.tips != {} ==> WalkedTo(dag.GraphView(), path, tip)
  {
    hide Drawn;
    var genesis := dag.GenesisId();
    path := [genesis];
    if genesis !in dag.vertices {
      tip := AnyTip(dag);
      return;
    }
    var current := genesis;
    for i := 0 to TIP_WALK_BOUND
      invariant current in dag.vertices
      invariant DrawnPath(dag.GraphView(), path) && |path| == i + 1 && path[i] == current
    {
      assert current in dag.children;
      var next := PickWeightedChild(dag, current);
      match next
      case Some(h) =>
        assert DrawnNext(dag.GraphView(), current, h);
        path := path + [h];
        current := h;
      case None => return current, path;
    }
    tip := AnyTip(dag);
  }

  /** Stored parents for every random choice: two distinct tips once there are two, the only
      tip and genesis otherwise. */
  ghost predicate GoodParents(g: Graph, p1: TxHash, p2: TxHash) {
    if g.tips == {} then p1 == NULL_PARENT && p2 == NULL_PARENT
    else
      && p1 in g.tips && p1 in g.vertices && p2 in g.vertices && p1 != NULL_PARENT && p2 != NULL_PARENT
      && (|g.tips| >= 2 ==> p2 in g.tips && p2 != p1)
      && (|g.tips| == 1 ==> p2 == g.genesis)
  }

  /** With two tips or more both parents are where two walks ended, or the second is another tip
      because they ended at the same one. */
  ghost predicate WalkedParents(g: Graph, p1: TxHash, p2: TxHash) {
    exists path, path', tip :: WalkedTo(g, path, p1) && WalkedTo(g, path', tip) && (p2 == tip || tip == p1)
  }

  method SelectParents(dag: KronDag) returns (p1: TxHash, p2: TxHash)
    requires dag.Valid()
    ensures GoodParents(dag.GraphView(), p1, p2)
    ensures |dag.tips| >= 2 ==> WalkedParents(dag.GraphView(), p1, p2)
  {
    ValidWalkable(dag.GraphView());
    hide Grown;
    var genesis := dag.GenesisId();
    if dag.tips == {} {
      return NULL_PARENT, NULL_PARENT;
    }
    if |dag.tips| == 1 {
      var tip :| tip in dag.tips;
      if tip == genesis {
        return tip, tip;
      }
      return tip, genesis;
    }
    ghost var path, path';
    p1, path := WalkToTip(dag);
    p2, path' := WalkToTip(dag);
    hide Walkable, WalkedTo;
    assert WalkedTo(dag.GraphView(), path, p1) && WalkedTo(dag.GraphView(), path', p2);
    if p1 == p2 {
      OtherTip(dag.tips, p1);
      p2 :| p2 in dag.tips && p2 != p1;
    }
  }

  lemma OtherTip(tips: set<TxHash>, p: TxHash)
    requires p in tips && |tips| != 1
    ensures exists q :: q in tips && q != p
  {
    if forall q :: q in tips ==> q == p { OnlyOne(tips, p); }
  }

  lemma OnlyOne(tips: set<TxHash>, p: TxHash)
    requires p in tips && forall q :: q in tips ==> q == p
    ensures |tips| == 1
  {
    assert tips == {p};
  }

  // ---------------------------------------------------------------- compose

  /** The signed payload; a vertex id is its digest. */
  datatype Unsigned = Unsigned(parent1: TxHash, parent2: TxHash, sender: Address, recipient: Address,
                               amount: u64, fee: u64, nonce: u64)

  function PayloadOf(tx: DagTransaction): Unsigned {
    Unsigned(tx.parent1, tx.parent2, tx.sender, tx.recipient, tx.amount, tx.fee, tx.nonce)
  }

  /** Collision-free and never the null parent. */
  ghost predicate Digest(id: Unsigned -> TxHash) {
    (forall a, b :: id(a) == id(b) ==> a == b) && forall a :: id(a) != NULL_PARENT
  }

  /** Every stored vertex is stored under the digest of its payload. */
  ghost predicate Hashed(g: Graph, id: Unsigned -> TxHash) {
    forall h {:trigger g.vertices[h]} :: h in g.vertices ==> h == id(PayloadOf(g.vertices[h]))
  }

  /** `user_transfer`: the fixed fee, the wallet's own key and signature, no relays. */
  function Compose(id: Unsigned -> TxHash, p1: TxHash, p2: TxHash, sender: Address, recipient: Address,
                   amount: u64, nonce: u64): DagTransaction {
    DagTransaction(
      id(Unsigned(p1, p2, sender, recipient, amount, FIXED_TRANSACTION_FEE, nonce)),
      p1, p2, sender, recipient, amount, FIXED_TRANSACTION_FEE, nonce, true, true, [], [])
  }

  lemma StoredHasChild(g: Graph, id: Unsigned -> TxHash, tx: DagTransaction)
    requires Digest(id) && Hashed(g, id) && tx.id == id(PayloadOf(tx)) && tx.parent1 != NULL_PARENT
    requires tx.id in g.vertices
    ensures ChildrenOf(g.vertices, tx.parent1) != {}
  {
    assert PayloadOf(g.vertices[tx.id]) == PayloadOf(tx);
    assert tx.id in ChildrenOf(g.vertices, tx.parent1);
  }

  /** The first parent has no child yet, so the payload cannot be stored already. */
  lemma ComposedIsNew(g: Graph, id: Unsigned -> TxHash, tx: DagTransaction)
    requires Shaped(g) && Digest(id) && Hashed(g, id) && tx.id == id(PayloadOf(tx))
    requires tx.parent1 in g.tips && tx.parent1 != NULL_PARENT
    ensures tx.id !in g.vertices
  {
    if tx.id in g.vertices { StoredHasChild(g, id, tx); }
  }

  lemma ComposedChecks(g: Graph, id: Unsigned -> TxHash, p1: TxHash, p2: TxHash, sender: Address,
                       recipient: Address, amount: u64, nonce: u64)
    requires Grown(g) && Digest(id) && Hashed(g, id) && GoodParents(g, p1, p2)
    ensures CheckVertex(g.vertices, Compose(id, p1, p2, sender, recipient, amount, nonce)) == Ok
  {
    GrownShaped(g);
    SomeTip(g);
    ComposedIsNew(g, id, Compose(id, p1, p2, sender, recipient, amount, nonce));
  }

  /** Attaching succeeds if and only if the balance covers amount and fee, and changes
      nothing when it does not. */
  ghost predicate FundsDecide(d: Dag, tx: DagTransaction) {
    && (Attach(d, tx).1 == Ok <==> At(d.ledger.balances, tx.sender) >= tx.amount + FIXED_TRANSACTION_FEE)
    && (Attach(d, tx).1 != Ok ==> Attach(d, tx).0 == d)
  }

  /** Composing on any selected parents and attaching locally succeeds exactly when the
      balance covers the amount and the fee. */
  lemma ComposedAttaches(d: Dag, b: nat, u: set<TxHash>, id: Unsigned -> TxHash, p1: TxHash, p2: TxHash,
                         sender: Address, recipient: Address, amount: u64, nonce: u64)
    requires Inv(d, b, u) && RoomFor(d, 1) && Digest(id) && Hashed(d.graph, id) && GoodParents(d.graph, p1, p2)
    requires nonce == At(d.ledger.nonces, sender)
    ensures FundsDecide(d, Compose(id, p1, p2, sender, recipient, amount, nonce))
  {
    hide Grown, Settled, CheckVertex, Insert, Attach, Digest, Hashed, GoodParents, AllOffered;
    var tx := Compose(id, p1, p2, sender, recipient, amount, nonce);
    ComposedChecks(d.graph, id, p1, p2, sender, recipient, amount, nonce);
    NeverNull(id, tx);
    if tx.Cost() <= U64_MAX {
      AttachClean(d, b, u, tx);
      EffectsDecide(d.ledger, tx);
    } else {
      BalanceFits(d, b, u, sender);
      CostTooHigh(d, tx);
    }
  }

  lemma NeverNull(id: Unsigned -> TxHash, tx: DagTransaction)
    requires Digest(id) && tx.id == id(PayloadOf(tx))
    ensures tx.id != NULL_PARENT
  {}

  lemma EffectsDecide(l: Ledger, tx: DagTransaction)
    requires tx.nonce == At(l.nonces, tx.sender) && tx.Cost() <= U64_MAX && ApplyEffects(l, tx).1 != Err(Overflow)
    ensures ApplyEffects(l, tx).1 == Ok <==> At(l.balances, tx.sender) >= tx.Cost()
  {}

  lemma BalanceFits(d: Dag, b: nat, u: set<TxHash>, a: Address)
    requires Inv(d, b, u) && RoomFor(d, 1)
    ensures At(d.ledger.balances, a) <= U64_MAX
  {
    hide Grown, Explained, InNonceOrder;
    SumAtLeast(d.ledger.balances, a);
    EmittedCapped(d.ledger.txCount);
  }

  lemma EmittedCapped(n: nat)
    ensures Emitted(n) <= HARD_CAP
  {
    hide Emitted, Schedule;
    EmissionSchedule(n);
  }

  lemma CostTooHigh(d: Dag, tx: DagTransaction)
    requires CheckVertex(d.graph.vertices, tx) == Ok && tx.nonce == At(d.ledger.nonces, tx.sender)
    requires tx.Cost() > U64_MAX
    ensures Attach(d, tx) == (d, Err(Overflow))
  {
    hide CheckVertex, Insert, Mint;
  }

  // -------------------------------------------------------------- miner tick

  datatype Status = Attached | WaitingForTips | WaitingForBalance | AttachFailed

  datatype TickOutcome = TickOutcome(
    genesisCreated: bool, faucetCredited: nat, attached: bool,
    vertices: nat, tips: nat, supply: nat, balance: nat, tx: Option<DagTransaction>, status: Status)

  const NEED: nat := FIXED_TRANSACTION_FEE + 1

  /** The local top-up of a node that knows nothing but genesis. */
  function Dust(d: Dag, sender: Address): nat {
    if |d.graph.vertices| <= 1 && At(d.ledger.balances, sender) < NEED then NEED - At(d.ledger.balances, sender) else 0
  }

  /** `ensure_genesis` */
  function WithStart(d: Dag, genesis: DagTransaction): Dag {
    if d.graph.vertices == map[] then Attach(d, genesis).0 else d
  }

  /** Genesis if the node is new, then the top-up. */
  function Prepared(d: Dag, genesis: DagTransaction, sender: Address): Dag {
    var e := WithStart(d, genesis);
    CreditAccount(e, sender, Dust(e, sender))
  }

  /** A node on which the miner runs: fresh, or in a reachable state with room. */
  ghost predicate Minable(d: Dag, b: nat, u: set<TxHash>, genesis: DagTransaction, id: Unsigned -> TxHash) {
    && ProtocolGenesis(genesis) && Digest(id) && genesis.id == id(PayloadOf(genesis))
    && (d == NEW || (Inv(d, b, u) && Hashed(d.graph, id)))
    && Room(d.faucet, |d.graph.order| + 2) && Sum(d.faucet) + NEED + HARD_CAP <= U64_MAX
  }

  /** What the top-up amounts to: 1,001 units less what the sender has, while nothing but genesis
      is stored, and nothing afterwards. */
  ghost function TopUp(vertices: nat, balance: nat): nat {
    if vertices <= 1 && balance < 1_001 then 1_001 - balance else 0
  }

  /** Preparing stores genesis on a new node, whose key then is at nonce 1, and credits the top-up
      to sender and faucet; it touches nothing else. */
  lemma PreparedExact(d: Dag, b: nat, u: set<TxHash>, genesis: DagTransaction, id: Unsigned -> TxHash,
                      sender: Address)
    requires Minable(d, b, u, genesis, id)
    ensures var e, credit := Prepared(d, genesis, sender), TopUp(|d.graph.vertices|, At(d.ledger.balances, sender));
      && Dust(WithStart(d, genesis), sender) == credit
      && e.graph == (if d == NEW then Insert(EMPTY, genesis) else d.graph) && e.conflicts == d.conflicts
      && e.ledger.supply == d.ledger.supply && e.ledger.txCount == d.ledger.txCount
      && e.ledger.credits == d.ledger.credits
      && (forall a :: At(e.ledger.balances, a) == At(d.ledger.balances, a) + if a == sender then credit else 0)
      && (forall a :: At(e.faucet, a) == At(d.faucet, a) + if a == sender then credit else 0)
      && (forall a :: At(e.ledger.nonces, a) == if d == NEW && a == genesis.sender then 1 else At(d.ledger.nonces, a))
  {
    hide Digest, Grown, Insert, Settled, AllOffered, CreditAccount, Dust, Hashed, Attach;
    if d == NEW {
      GenesisAttaches(genesis);
      GenesisFields(genesis);
      GenesisInv(genesis);
      TopUpMoves(WithGenesis(genesis), 1, {}, sender);
    } else {
      StoredSomething(d, b, u);
      TopUpMoves(d, b, u, sender);
    }
  }

  lemma TopUpMoves(d: Dag, b: nat, u: set<TxHash>, sender: Address)
    requires Inv(d, b, u) && Sum(d.faucet) + NEED + HARD_CAP <= U64_MAX
    ensures var credit := TopUp(|d.graph.vertices|, At(d.ledger.balances, sender));
      var e := CreditAccount(d, sender, Dust(d, sender));
      && Dust(d, sender) == credit && e.graph == d.graph && e.conflicts == d.conflicts
      && e.ledger == d.ledger.(balances := e.ledger.balances)
      && (forall a :: At(e.ledger.balances, a) == At(d.ledger.balances, a) + if a == sender then credit else 0)
      && (forall a :: At(e.faucet, a) == At(d.faucet, a) + if a == sender then credit else 0)
  {
    hide Grown, AllOffered, Explained, InNonceOrder, AppliedAll, CreditAccount, Sum, Emitted;
    DustIs(d, sender);
    CreditFields(d, sender, Dust(d, sender));
  }

  lemma DustIs(d: Dag, sender: Address)
    ensures Dust(d, sender) == TopUp(|d.graph.vertices|, At(d.ledger.balances, sender)) <= NEED
  {}

  lemma PreparedReady(d: Dag, b: nat, u: set<TxHash>, genesis: DagTransaction, id: Unsigned -> TxHash,
                      sender: Address) returns (b': nat)
    requires Minable(d, b, u, genesis, id)
    ensures var e := Prepared(d, genesis, sender);
      && Inv(e, b', if d == NEW then {} else u) && Hashed(e.graph, id) && RoomFor(e, 1)
      && (d.graph.vertices == map[] <==> d == NEW)
      && (d == NEW ==> Attach(d, genesis).1 == Ok)
  {
    hide Digest, Settled, Grown, AllOffered, Insert, CreditAccount, Dust;
    b' := b;
    var e := d;
    var w := u;
    if d == NEW {
      GenesisHashed(genesis, id);
      GenesisInv(genesis);
      b', e, w := 1, WithGenesis(genesis), {};
    } else {
      StoredSomething(d, b, u);
    }
    DustBound(e, sender);
    CreditKeeps(e, b', w, sender, Dust(e, sender));
    CreditGraph(e, sender, Dust(e, sender));
  }

  lemma DustBound(d: Dag, sender: Address)
    ensures Dust(d, sender) <= NEED
  {}

  lemma CreditGraph(d: Dag, a: Address, amount: nat)
    ensures CreditAccount(d, a, amount).graph == d.graph
  {}

  lemma StoredSomething(d: Dag, b: nat, u: set<TxHash>)
    requires Inv(d, b, u)
    ensures d.graph.vertices != map[] && d != NEW
  {
    hide Settled;
    GrownShaped(d.graph);
  }

  lemma GenesisHashed(genesis: DagTransaction, id: Unsigned -> TxHash)
    requires ProtocolGenesis(genesis) && genesis.id == id(PayloadOf(genesis))
    ensures Attach(NEW, genesis).1 == Ok && Hashed(WithGenesis(genesis).graph, id)
    ensures WithGenesis(genesis).faucet == map[] && |WithGenesis(genesis).graph.order| == 1
    ensures Sum(WithGenesis(genesis).faucet) == 0
  {
    hide Insert;
    GenesisAttaches(genesis);
    GenesisFields(genesis);
  }

  lemma GenesisNamed(d: Dag, b: nat, u: set<TxHash>, genesis: DagTransaction, id: Unsigned -> TxHash)
    requires Minable(d, b, u, genesis, id)
    ensures genesis.id != NULL_PARENT && (|d.graph.vertices| == 0 <==> d.graph.vertices == map[]) && Digest(id)
  {
    hide Digest;
  }

  /** After the top-up a node that knows nothing but genesis can pay for a share. */
  lemma DustEnough(d: Dag, genesis: DagTransaction, sender: Address)
    ensures var e := Prepared(d, genesis, sender);
      |e.graph.vertices| <= 1 ==> At(e.ledger.balances, sender) >= NEED
  {
    hide Attach;
  }

  lemma HasTips(d: Dag, b: nat, u: set<TxHash>)
    requires Inv(d, b, u)
    ensures d.graph.tips != {}
  {
    hide Settled;
    GrownShaped(d.graph);
    SomeTip(d.graph);
  }

  /** Nonces count applied vertices, so they fit in 64 bits. */
  lemma NonceFits(d: Dag, b: nat, u: set<TxHash>, s: Address)
    requires Inv(d, b, u) && RoomFor(d, 1)
    ensures At(d.ledger.nonces, s) <= U64_MAX
  {
    hide Grown, Net, CreditNet, InNonceOrder, Sound, AppliedAll;
    CountBelow(d, b, u);
    CountBounded(AppliedAll(d.graph, d.conflicts.Keys + u), s);
  }

  /** One unit to `dest` under the fixed fee and the sender's next nonce, on selected parents,
      valid and without relays. */
  ghost predicate ShareOf(e: Dag, tx: DagTransaction, sender: Address, dest: Address) {
    && tx.sender == sender && tx.recipient == dest && tx.amount == 1 && tx.fee == 1_000
    && tx.nonce == At(e.ledger.nonces, sender) && GoodParents(e.graph, tx.parent1, tx.parent2)
    && tx.keyMatchesSender && tx.signatureValid && tx.relayNodes == [] && tx.relayProofs == []
  }

  lemma ComposesShare(e: Dag, id: Unsigned -> TxHash, p1: TxHash, p2: TxHash, sender: Address, dest: Address)
    requires GoodParents(e.graph, p1, p2) && At(e.ledger.nonces, sender) <= U64_MAX
    ensures var tx := Compose(id, p1, p2, sender, dest, 1, At(e.ledger.nonces, sender));
      ShareOf(e, tx, sender, dest) && tx.sender == sender && tx.amount == 1 && tx.id == id(PayloadOf(tx))
  {
    hide GoodParents;
  }

  /** An attached share is the next confirmed vertex. */
  lemma ShareApplies(e: Dag, b: nat, u: set<TxHash>, id: Unsigned -> TxHash, tx: DagTransaction,
                     sender: Address, dest: Address)
    requires Inv(e, b, u) && RoomFor(e, 1) && tx.id != NULL_PARENT && ShareOf(e, tx, sender, dest)
    requires Attach(e, tx).1 == Ok
    ensures AppliedNext(e, tx, Attach(e, tx).0)
  {
    hide Inv, RoomFor, GoodParents;
    AttachChecked(e, tx);
    AdmissionExact(e.graph.vertices, tx);
    hide Attach, CheckVertex, AppliedNext, Due;
    AcceptExact(e, b, u, tx);
  }

  lemma AttachChecked(d: Dag, tx: DagTransaction)
    requires Attach(d, tx).1 == Ok
    ensures CheckVertex(d.graph.vertices, tx) == Ok
  {}

  /** `ensure_genesis` and the top-up. */
  method Prepare(dag: KronDag, genesis: DagTransaction, sender: Address) returns (created: bool, credited: nat)
    requires dag.Valid() && genesis.id != NULL_PARENT
    modifies dag
    ensures dag.Valid() && dag.View() == Prepared(old(dag.View()), genesis, sender)
    ensures created <==> old(dag.vertices) == map[]
    ensures credited == Dust(WithStart(old(dag.View()), genesis), sender)
  {
    hide Grown, Attach;
    created := |dag.vertices| == 0;
    if created {
      var attached := dag.AttachAndVerifyTx(genesis);
    }
    credited := 0;
    if |dag.vertices| <= 1 && At(dag.balances, sender) < NEED {
      credited := NEED - At(dag.balances, sender);
      if credited > 0 {
        dag.CreditAccount(sender, credited);
      }
    }
  }

  /** One tick attaches a share exactly when the host is admitted and the prepared balance covers
      it; there is always a tip to build on, composing never fails, attaching fails only for the
      host, and on an admitted host a node that knows nothing but genesis always attaches. */
  method MinerTick(dag: KronDag, genesis: DagTransaction, id: Unsigned -> TxHash, sender: Address, dest: Address,
                   admitted: bool, ghost b: nat, ghost u: set<TxHash>)
    returns (out: TickOutcome)
    requires dag.Valid() && Minable(dag.View(), b, u, genesis, id)
    modifies dag
    ensures dag.Valid()
    ensures var e := Prepared(old(dag.View()), genesis, sender);
      && (out.attached <==> admitted && At(e.ledger.balances, sender) >= NEED)
      && out.status == (if At(e.ledger.balances, sender) < NEED then WaitingForBalance
                        else if admitted then Attached else Status.AttachFailed)
      && (out.attached ==> out.tx.Some? && (dag.View(), Ok) == Attach(e, out.tx.value)
                           && ShareOf(e, out.tx.value, sender, dest) && AppliedNext(e, out.tx.value, dag.View()))
      && (!out.attached ==> dag.View() == e && out.tx == None)
      && (|e.graph.vertices| <= 1 && admitted ==> out.attached)
    ensures out.vertices == |dag.vertices| && out.tips == |dag.tips| && out.supply == dag.currentSupply
    ensures out.balance == At(dag.balances, sender)
    ensures out.genesisCreated <==> old(dag.vertices) == map[]
    ensures out.faucetCredited == TopUp(|old(dag.vertices)|, At(old(dag.balances), sender))
  {
    hide Minable, Grown, Attach, Inv, GoodParents, Digest, Hashed, AppliedNext, TopUp;
    ghost var d := dag.View();
    ghost var b' := PreparedReady(d, b, u, genesis, id, sender);
    PreparedExact(d, b, u, genesis, id, sender);
    GenesisNamed(d, b, u, genesis, id);
    var created, credited := Prepare(dag, genesis, sender);
    ghost var e := dag.View();
    DustEnough(d, genesis, sender);
    out := TickOutcome(created, credited, false, |dag.vertices|, |dag.tips|, dag.currentSupply,
                       At(dag.balances, sender), None, WaitingForTips);
    HasTips(e, b', if d == NEW then {} else u);
    if dag.tips == {} {
      return;
    }
    if out.balance < NEED {
      out := out.(status := WaitingForBalance);
      return;
    }
    var p1, p2 := SelectParents(dag);
    NonceFits(e, b', if d == NEW then {} else u, sender);
    var nonce := At(dag.nextNonce, sender);
    var tx := Compose(id, p1, p2, sender, dest, 1, nonce);
    ComposesShare(e, id, p1, p2, sender, dest);
    ComposedAttaches(e, b', if d == NEW then {} else u, id, p1, p2, sender, dest, 1, nonce);
    hide Compose, ShareOf, PayloadOf;
    NeverNull(id, tx);
    if !admitted {
      out := out.(status := Status.AttachFailed);
      return;
    }
    var o := dag.AttachAndVerifyTx(tx);
    if o == Ok {
      ShareApplies(e, b', if d == NEW then {} else u, id, tx, sender, dest);
      out := TickOutcome(created, credited, true, |dag.vertices|, |dag.tips|, dag.currentSupply,
                         At(dag.balances, sender), Some(tx), Attached);
    } else {
      out := out.(status := Status.AttachFailed);
    }
  }
}
