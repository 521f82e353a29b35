/** What wire accept and rebuild (src/dag/engine.rs) do to ledger and conflicts, without
    naming either: one vertex's effect while it is due and paid for, and otherwise the one
    set of spends that can be applied in attach order. */
module Acceptance {
  import opened Basics
  import opened Economics
  import opened Transactions
  import opened Ledgers
  import opened Graphs
  import opened Building
  import opened History
  import opened Dags
  import opened Settlement
  import opened Steps
  import opened Runs
  import opened Safety
  import opened Admission

  // ------------------------------------------------------------------ accept

  /** The sender has reached the nonce of `tx` and can pay amount and fee. */
  ghost predicate Due(l: Ledger, tx: DagTransaction) {
    tx.nonce == At(l.nonces, tx.sender) && At(l.balances, tx.sender) >= tx.amount + tx.fee
  }

  /** `m` is `l` with `tx` as its next confirmed vertex and nothing else. */
  ghost predicate MovedBy(l: Ledger, tx: DagTransaction, m: Ledger) {
    && m.txCount == l.txCount + 1 && m.supply == l.supply + SubsidyAt(l.txCount)
    && (forall a :: At(m.balances, a) == At(l.balances, a) + Delta(tx, l.txCount, a))
    && (forall a :: At(m.credits, a) == At(l.credits, a) + RelayDelta(tx, l.txCount, a))
    && (forall a :: At(m.nonces, a) == At(l.nonces, a) + if a == tx.sender then 1 else 0)
  }

  lemma DueDecides(l: Ledger, tx: DagTransaction)
    requires tx.Cost() <= U64_MAX && ApplyEffects(l, tx).1 != Err(Overflow)
    ensures ApplyEffects(l, tx).1 == Ok <==> Due(l, tx)
  {}

  lemma AppliedMoves(l: Ledger, tx: DagTransaction)
    requires l.supply == Emitted(l.txCount) && ApplyEffects(l, tx).1 == Ok && At(l.nonces, tx.sender) < U64_MAX
    ensures MovedBy(l, tx, ApplyEffects(l, tx).0)
  {
    hide ApplyEffects, Delta, RelayDelta;
    ApplyAt(l, tx, 0);
    forall a
      ensures var m := ApplyEffects(l, tx).0;
        && At(m.balances, a) == At(l.balances, a) + Delta(tx, l.txCount, a)
        && At(m.credits, a) == At(l.credits, a) + RelayDelta(tx, l.txCount, a)
        && At(m.nonces, a) == At(l.nonces, a) + if a == tx.sender then 1 else 0
    {
      ApplyAt(l, tx, a);
    }
  }

  /** Nonces count applied vertices. */
  lemma NonceSmall(d: Dag, b: nat, u: set<TxHash>, s: Address)
    requires Inv(d, b, u) && RoomFor(d, 1)
    ensures At(d.ledger.nonces, s) < U64_MAX
  {
    hide Grown, Net, CreditNet, InNonceOrder, AppliedAll;
    CountBelow(d, b, u);
    CountBounded(AppliedAll(d.graph, d.conflicts.Keys + u), s);
  }

  /** The vertex is stored and applied; nothing is resolved anew. */
  ghost predicate AppliedNext(d: Dag, tx: DagTransaction, e: Dag) {
    && e.graph == Insert(d.graph, tx) && e.faucet == d.faucet && e.conflicts == d.conflicts
    && MovedBy(d.ledger, tx, e.ledger)
  }

  /** A sound vertex that is due and paid for moves the ledger by itself alone and leaves every
      conflict as it was, whether it comes by wire or is attached locally.  Any other sound
      vertex is refused locally, without a trace, and by wire it is stored and everything is
      settled anew. */
  lemma AcceptExact(d: Dag, b: nat, u: set<TxHash>, tx: DagTransaction)
    requires Inv(d, b, u) && Offered(tx) && RoomFor(d, 1)
    requires Placed(d.graph.vertices, tx) && FeeRight(tx) && tx.keyMatchesSender && tx.signatureValid && ProofsHold(tx)
    ensures Attach(d, tx).1 == Ok <==> Due(d.ledger, tx)
    ensures Due(d.ledger, tx) ==>
      Accept(d, tx) == (Attach(d, tx).0, Stored(true)) && AppliedNext(d, tx, Accept(d, tx).0)
    ensures !Due(d.ledger, tx) ==>
      && Attach(d, tx) == (d, if tx.nonce != At(d.ledger.nonces, tx.sender) then Err(DoubleSpend(tx.nonce))
                              else Err(InsufficientBalance))
      && Accept(d, tx) == (Rebuild(d.(graph := Insert(d.graph, tx))).0, Stored(true))
  {
    AdmissionExact(d.graph.vertices, tx);
    AttachClean(d, b, u, tx);
    var b', u' := AcceptKeeps(d, b, u, tx);
    hide Grown, CheckVertex, Insert, ApplyEffects, Rebuild, AllOffered, Placed, ProofsHold;
    DueDecides(d.ledger, tx);
    if Due(d.ledger, tx) {
      NonceSmall(d, b, u, tx.sender);
      AppliedMoves(d.ledger, tx);
    } else {
      RefusedAs(d.ledger, tx);
    }
  }

  lemma RefusedAs(l: Ledger, tx: DagTransaction)
    requires ApplyEffects(l, tx).1 != Err(Overflow) && !Due(l, tx)
    ensures ApplyEffects(l, tx).1
         == if tx.nonce != At(l.nonces, tx.sender) then Err(DoubleSpend(tx.nonce)) else Err(InsufficientBalance)
  {}

  /** When only the mint overflows, the vertex stays stored and its transfer made; nothing counts
      as confirmed. */
  lemma OverflowStores(d: Dag, tx: DagTransaction)
    requires CheckVertex(d.graph.vertices, tx) == Ok && !tx.IsGenesis() && tx.Cost() <= U64_MAX && Due(d.ledger, tx)
    requires tx.sender == tx.recipient || At(d.ledger.balances, tx.recipient) + tx.amount <= U64_MAX
    requires Attach(d, tx).1 != Ok
    ensures var e := Attach(d, tx).0;
      && Attach(d, tx).1 == Err(Overflow)
      && e.graph == Insert(d.graph, tx) && e.faucet == d.faucet && e.conflicts == d.conflicts
      && e.ledger.txCount == d.ledger.txCount
      && (forall a :: At(e.ledger.nonces, a) == if a == tx.sender then SatAdd(tx.nonce, 1) else At(d.ledger.nonces, a))
  {
    hide Insert, CheckVertex, Mint;
    MintFails(Transfer(d.ledger, tx).0, tx.fee, tx.sender, tx.ProvenRelayNodes());
  }

  lemma MintFails(l: Ledger, fee: nat, miner: Address, nodes: seq<Address>)
    requires !Mint(l, fee, miner, nodes).1
    ensures Mint(l, fee, miner, nodes).0.nonces == l.nonces && Mint(l, fee, miner, nodes).0.txCount == l.txCount
  {
    hide CreditRelays, Unique, GetCurrentTxSubsidy, MinerPaid, RelayParts, DagRelayTotalOf;
    var relays, pool := Unique(nodes), GetCurrentTxSubsidy(l.txCount, l.supply) + fee;
    PayoutKeeps(l.(balances := Credit(l.balances, miner, MinerPaid(pool, relays))), relays,
                RelayParts(DagRelayTotalOf(pool), |relays|), |relays|);
  }

  lemma {:induction false} PayoutKeeps(l: Ledger, relays: seq<Address>, parts: seq<nat>, k: nat)
    requires k <= |relays| == |parts|
    ensures CreditRelays(l, relays, parts, k).0.nonces == l.nonces
    ensures CreditRelays(l, relays, parts, k).0.txCount == l.txCount
  {
    if k > 0 { PayoutKeeps(l, relays, parts, k - 1); }
  }

  // ------------------------------------------------------------ relay credit

  lemma {:induction false} SomeonePaid(h: seq<DagTransaction>, a: Address) returns (i: nat)
    requires CreditNet(h, a) > 0
    ensures i < |h| && RelayDelta(h[i], i, a) > 0
  {
    hide RelayDelta;
    i := |h| - 1;
    if RelayDelta(h[i], i, a) == 0 { i := SomeonePaid(h[..i], a); }
  }

  /** After any allowed run a phone has relay credit only if a valid proof of its own is on some
      stored vertex that is not in conflict. */
  lemma CreditProven(genesis: DagTransaction, steps: seq<Step>, a: Address) returns (id: TxHash)
    requires ProtocolGenesis(genesis) && AllowedRun(WithGenesis(genesis), steps)
    requires At(Run(WithGenesis(genesis), steps).ledger.credits, a) > 0
    ensures var d := Run(WithGenesis(genesis), steps);
      && id in d.graph.vertices && id !in d.conflicts && !d.graph.vertices[id].IsGenesis()
      && ProvenBy(d.graph.vertices[id], a)
  {
    hide Run, AllowedRun, WithGenesis, ProtocolGenesis, Inv;
    GenesisInv(genesis);
    var b, u := RunKeeps(WithGenesis(genesis), 1, {}, steps);
    id := CreditFrom(Run(WithGenesis(genesis), steps), b, u, a);
  }

  lemma CreditFrom(d: Dag, b: nat, u: set<TxHash>, a: Address) returns (id: TxHash)
    requires Inv(d, b, u) && At(d.ledger.credits, a) > 0
    ensures Affects(d, u, id) && ProvenBy(d.graph.vertices[id], a)
  {
    hide Grown, Net, CreditNet, Count, InNonceOrder, Sound, AppliedAll, RelayDelta, ProofsHold, ProvenBy;
    var skip := d.conflicts.Keys + u;
    var i := SomeonePaid(AppliedAll(d.graph, skip), a);
    var j := AppliedIndex(d, skip, i);
    id := d.graph.order[j];
    OrderStored(d.graph, j);
    StoredExact(d.graph, id);
    RelayPayout(d.graph.vertices[id], i, a);
  }

  lemma OrderStored(g: Graph, j: nat)
    requires Grown(g) && j < |g.order|
    ensures g.order[j] in g.vertices
  {}

  // ----------------------------------------------------------------- rebuild

  /** What the faucet and the applied vertices `h` leave `tx`: its nonce is due and its sender
      can pay. */
  ghost predicate PayableAfter(f: map<Address, nat>, h: seq<DagTransaction>, tx: DagTransaction) {
    tx.nonce == Count(h, tx.sender) && At(f, tx.sender) + Net(h, tx.sender) >= tx.amount + tx.fee
  }

  /** A survivor at position j is dropped exactly if it cannot follow what was applied before. */
  ghost predicate DroppedRightly(f: map<Address, nat>, vs: Vertices, order: seq<TxHash>, losers: set<TxHash>,
                                 extra: set<TxHash>, j: nat)
    requires j < |order|
  {
    order[j] in vs && !Skipped(vs, losers, order[j]) ==>
      (order[j] in extra <==> !PayableAfter(f, Applied(vs, order, losers + extra, j), vs[order[j]]))
  }

  lemma {:induction false} ReplayExact(f: map<Address, nat>, vs: Vertices, order: seq<TxHash>,
                                       losers: set<TxHash>, n: nat)
    requires Lined(vs, order) && Payable(vs, order) && Room(f, |order|) && n <= |order|
    ensures var r := Replay(vs, order, losers, Baseline(f), n);
      ToSet(r.extra) <= ToSet(order[..n])
      && forall j :: 0 <= j < n ==> DroppedRightly(f, vs, order, losers, ToSet(r.extra), j)
  {
    hide ReplayOne, DroppedRightly, Lined, Payable, Room;
    if n == 0 {
      NothingDropped(vs, order, losers, f);
    } else {
      ReplayExact(f, vs, order, losers, n - 1);
      ReplayLaw(f, vs, order, losers, n - 1);
      var r := Replay(vs, order, losers, Baseline(f), n - 1);
      var more := ToSet(ReplayOne(vs, losers, r, order[n - 1]).extra);
      PayableHere(vs, order, n - 1);
      DropNext(f, vs, order, losers, r, n - 1);
      PrefixMore(order, n - 1);
      forall j | 0 <= j < n - 1 ensures DroppedRightly(f, vs, order, losers, more, j) {
        DropKept(f, vs, order, losers, ToSet(r.extra), more, j, n - 1);
      }
    }
  }

  lemma PayableHere(vs: Vertices, order: seq<TxHash>, n: nat)
    requires Payable(vs, order) && n < |order|
    ensures PayableAt(vs, order, n)
  {}

  lemma NothingDropped(vs: Vertices, order: seq<TxHash>, losers: set<TxHash>, f: map<Address, nat>)
    ensures ToSet(Replay(vs, order, losers, Baseline(f), 0).extra) == {}
  {}

  /** Later verdicts leave earlier ones alone. */
  lemma DropKept(f: map<Address, nat>, vs: Vertices, order: seq<TxHash>, losers: set<TxHash>,
                 extra: set<TxHash>, more: set<TxHash>, j: nat, n: nat)
    requires j < n < |order| && Lined(vs, order) && extra <= more <= extra + {order[n]}
    requires DroppedRightly(f, vs, order, losers, extra, j)
    ensures DroppedRightly(f, vs, order, losers, more, j)
  {
    hide Skipped;
    forall i | 0 <= i < j
      ensures order[i] in vs && (order[i] in losers + extra <==> order[i] in losers + more)
    {
      assert LinedAt(vs, order, i);
    }
    AppliedSame(vs, vs, order, order, losers + extra, losers + more, j);
  }

  /** The verdict on the next vertex of a replay. */
  lemma DropNext(f: map<Address, nat>, vs: Vertices, order: seq<TxHash>, losers: set<TxHash>, r: Replayed, n: nat)
    requires n < |order| && Replaying(f, vs, order, losers, r, n) && Room(f, |order|) && Lined(vs, order)
    requires PayableAt(vs, order, n)
    ensures var more := ToSet(ReplayOne(vs, losers, r, order[n]).extra);
      && ToSet(r.extra) <= more <= ToSet(r.extra) + {order[n]}
      && DroppedRightly(f, vs, order, losers, more, n)
  {
    var id, more := order[n], ToSet(ReplayOne(vs, losers, r, order[n]).extra);
    assert LinedAt(vs, order, n);
    ReplayNext(order, r, n);
    if !Skipped(vs, losers, id) {
      NeverOverflows(r.ledger, f, vs[id]);
      VerdictIs(vs, losers, r, id);
      forall i | 0 <= i < n
        ensures order[i] in vs && (order[i] in losers + ToSet(r.extra) <==> order[i] in losers + more)
      {
        assert LinedAt(vs, order, i);
      }
      AppliedSame(vs, vs, order, order, losers + ToSet(r.extra), losers + more, n);
      hide ApplyEffects, ReplayOne, Applied, Net, Count, Sound;
      assert Due(r.ledger, vs[id])
        <==> PayableAfter(f, Applied(vs, order, losers + ToSet(r.extra), n), vs[id]);
    }
  }

  lemma VerdictIs(vs: Vertices, losers: set<TxHash>, r: Replayed, id: TxHash)
    requires !r.failed && !Skipped(vs, losers, id) && id !in r.extra
    requires vs[id].Cost() <= U64_MAX && ApplyEffects(r.ledger, vs[id]).1 != Err(Overflow)
    ensures ToSet(ReplayOne(vs, losers, r, id).extra)
         == ToSet(r.extra) + if Due(r.ledger, vs[id]) then {} else {id}
  {
    hide ApplyEffects;
    DueDecides(r.ledger, vs[id]);
    if ApplyEffects(r.ledger, vs[id]).1 != Ok { ApplyRefuses(r.ledger, vs[id]); }
  }

  /** `b` and `a` are spends of one sender with one nonce, and `b` ranks above `a` by weight,
      then by id. */
  ghost predicate Beats(g: Graph, b: TxHash, a: TxHash) {
    && a in g.vertices && b in g.vertices && a != b && a != g.genesis && b != g.genesis
    && g.vertices[a].sender == g.vertices[b].sender && g.vertices[a].nonce == g.vertices[b].nonce
    && (At(g.weights, b) > At(g.weights, a) || (At(g.weights, b) == At(g.weights, a) && b > a))
  }

  /** What a rebuild leaves of the conflict entry of `id`, which is at position j of the attach
      order: the rival that beats `id` and every other rival of it, if it is beaten; the null
      parent if it is not, but cannot be applied after what was applied before it; no entry
      otherwise. */
  ghost predicate SettledAt(e: Dag, j: nat)
    requires j < |e.graph.order|
  {
    var g, id := e.graph, e.graph.order[j];
    var beaten := exists b :: Beats(g, b, id);
    id in g.vertices && id != g.genesis ==>
      && (id in e.conflicts <==>
            beaten || !PayableAfter(e.faucet, Applied(g.vertices, g.order, e.conflicts.Keys, j), g.vertices[id]))
      && (beaten ==> Beats(g, e.conflicts[id], id) && !exists c :: Beats(g, c, e.conflicts[id]))
      && (!beaten && id in e.conflicts ==> e.conflicts[id] == 0)
  }

  /** With room a rebuild succeeds, keeps graph and faucet, and settles every position. */
  lemma RebuildExact(d: Dag)
    requires Stocked(d) && RoomFor(d, 0)
    ensures var e := Rebuild(d).0;
      && Rebuild(d).1 == Ok && e.graph == d.graph && e.faucet == d.faucet
      && (forall j :: 0 <= j < |e.graph.order| ==> SettledAt(e, j))
      && d.graph.genesis !in e.conflicts && e.conflicts.Keys <= d.graph.vertices.Keys
  {
    var vs, order := d.graph.vertices, d.graph.order;
    var losers, r := Losers(vs, d.graph.weights), ReplayAll(d);
    StockedPayable(d);
    RebuildSettles(d);
    ReplayExact(d.faucet, vs, order, losers, |order|);
    hide Replay, Losers, Applied, Explained, InNonceOrder, Sound, Payable;
    GrownLined(d.graph);
    var e := Rebuild(d).0;
    forall j | 0 <= j < |order| ensures SettledAt(e, j) {
      assert DroppedRightly(d.faucet, vs, order, losers, ToSet(r.extra), j);
      VerdictAt(d, r, j);
    }
  }

  lemma BeatenLoses(g: Graph, id: TxHash)
    requires id in g.vertices
    requires forall h :: h in g.vertices ==> (g.vertices[h].IsGenesis() <==> h == g.genesis)
    ensures forall b :: Beats(g, b, id) <==> LosesTo(g.vertices, g.weights, id, b)
    ensures id in Losers(g.vertices, g.weights) <==> exists b :: Beats(g, b, id)
  {}

  lemma OnlyGenesis(g: Graph)
    requires Grown(g)
    ensures forall h :: h in g.vertices ==> (g.vertices[h].IsGenesis() <==> h == g.genesis)
  {
    GrownLined(g);
    forall h | h in g.vertices ensures g.vertices[h].IsGenesis() <==> h == g.genesis {
      assert h in ToSet(g.order);
      var i :| 0 <= i < |g.order| && g.order[i] == h;
      assert LinedAt(g.vertices, g.order, i) && LinedAt(g.vertices, g.order, 0);
    }
  }

  lemma VerdictAt(d: Dag, r: Replayed, j: nat)
    requires Grown(d.graph) && j < |d.graph.order| && r == ReplayAll(d) && !r.failed
    requires DroppedRightly(d.faucet, d.graph.vertices, d.graph.order, Losers(d.graph.vertices, d.graph.weights),
                            ToSet(r.extra), j)
    ensures SettledAt(Rebuild(d).0, j)
  {
    var g, e := d.graph, Rebuild(d).0;
    var id, losers := g.order[j], Losers(g.vertices, g.weights);
    OnlyGenesis(g);
    hide Grown, ReplayAll, PayableAfter;
    assert e.conflicts.Keys == losers + ToSet(r.extra);
    if id in g.vertices && id != g.genesis {
      BeatenLoses(g, id);
      if id in losers {
        var w := e.conflicts[id];
        assert Wins(g.vertices, g.weights, id, w);
        BeatenLoses(g, w);
      }
    }
  }
}
