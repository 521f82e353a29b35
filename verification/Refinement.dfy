/** The batch ledger (`resolve_conflicts_and_rebuild_ledger`) against the incremental one
    (`attach_vertex_and_maybe_mint`): after credits and attaches alone a rebuild returns the
    same ledger, unless the genesis key was used as a sender. */
module Refinement {
  import opened Basics
  import opened Economics
  import opened Transactions
  import opened Ledgers
  import opened Graphs
  import opened Building
  import opened History
  import opened Dags
  import opened Settlement
  import opened Steps
  import opened Runs
  import opened Safety

  /** With the whole faucet credited first, every vertex of `h` can still pay. */
  ghost predicate Funded(f: map<Address, nat>, h: seq<DagTransaction>) {
    forall i :: 0 <= i < |h| ==> FundedAt(f, h, i)
  }

  ghost predicate FundedAt(f: map<Address, nat>, h: seq<DagTransaction>, i: nat)
    requires i < |h|
  {
    At(f, h[i].sender) + Net(h[..i], h[i].sender) >= h[i].Cost()
  }

  /** A state reached by credits and attaches only. */
  ghost predicate Incremental(d: Dag) {
    Inv(d, 1, {}) && d.conflicts == map[] && Funded(d.faucet, AppliedAll(d.graph, {}))
  }

  ghost predicate LocalStep(s: Step) { s.CreditStep? || s.AttachStep? }

  // ------------------------------------------------------ incremental states

  lemma FundedCredit(f: map<Address, nat>, h: seq<DagTransaction>, a: Address, amount: nat)
    requires Funded(f, h)
    ensures Funded(Credit(f, a, amount), h)
  {
    forall i | 0 <= i < |h| ensures FundedAt(Credit(f, a, amount), h, i) { assert FundedAt(f, h, i); }
  }

  lemma FundedAttach(l: Ledger, f: map<Address, nat>, h: seq<DagTransaction>, base: map<Address, nat>,
                     tx: DagTransaction)
    requires Funded(f, h) && Explained(l, f, h, base) && ApplyEffects(l, tx).1 == Ok
    ensures Funded(f, h + [tx])
  {
    var h' := h + [tx];
    assert At(l.balances, tx.sender) >= tx.Cost();
    forall i | 0 <= i < |h'| ensures FundedAt(f, h', i) {
      if i < |h| { assert FundedAt(f, h, i) && h'[..i] == h[..i]; } else { assert h'[..i] == h; }
    }
  }

  lemma IncrementalStep(d: Dag, s: Step)
    requires Incremental(d) && LocalStep(s) && Allowed(d, s)
    ensures Incremental(Exec(d, s)) && Exec(d, s).graph.genesis == d.graph.genesis
    ensures d.graph.genesis in d.graph.vertices && d.graph.genesis in Exec(d, s).graph.vertices
         && Exec(d, s).graph.vertices[d.graph.genesis] == d.graph.vertices[d.graph.genesis]
  {
    hide Grown, AppliedAll, Attach, InNonceOrder, Funded;
    assert d.conflicts.Keys + {} == {};
    GrownShaped(d.graph);
    match s {
      case CreditStep(a, amount) =>
        CreditKeeps(d, 1, {}, a, amount);
        CreditFields(d, a, amount);
        FundedCredit(d.faucet, AppliedAll(d.graph, {}), a, amount);
      case AttachStep(tx) =>
        AttachClean(d, 1, {}, tx);
        if Attach(d, tx).1 == Ok {
          AttachKeeps(d, 1, {}, tx);
          InsertExtends(d.graph, tx);
          FundedAttach(d.ledger, d.faucet, AppliedAll(d.graph, {}), Base(d.graph, 1), tx);
        }
    }
  }

  lemma {:induction false} IncrementalRun(genesis: DagTransaction, steps: seq<Step>)
    requires ProtocolGenesis(genesis) && AllowedRun(WithGenesis(genesis), steps)
    requires forall i :: 0 <= i < |steps| ==> LocalStep(steps[i])
    ensures var d := Run(WithGenesis(genesis), steps);
      Incremental(d) && d.graph.genesis == genesis.id && genesis.id in d.graph.vertices &&
      d.graph.vertices[genesis.id] == genesis
  {
    hide Incremental, Allowed, Exec, Insert;
    if steps == [] {
      IncrementalStart(genesis);
    } else {
      IncrementalRun(genesis, steps[..|steps| - 1]);
      IncrementalStep(Run(WithGenesis(genesis), steps[..|steps| - 1]), steps[|steps| - 1]);
    }
  }

  lemma IncrementalStart(genesis: DagTransaction)
    requires ProtocolGenesis(genesis)
    ensures var d := WithGenesis(genesis);
      Incremental(d) && d.graph.genesis == genesis.id && genesis.id in d.graph.vertices &&
      d.graph.vertices[genesis.id] == genesis
  {
    hide Inv, Insert, Attach;
    GenesisInv(genesis);
    GenesisAttaches(genesis);
    GenesisFields(genesis);
  }

  // ------------------------------------------------------ replay succeeds

  /** What is applied of a prefix of the order is a prefix of what is applied of it all. */
  lemma {:induction false} AppliedPrefix(vs: Vertices, order: seq<TxHash>, skip: set<TxHash>, n: nat, m: nat)
    requires n <= m <= |order|
    ensures Applied(vs, order, skip, n) <= Applied(vs, order, skip, m)
    decreases m
  {
    if n < m { AppliedPrefix(vs, order, skip, n, m - 1); }
  }

  /** Without the genesis key among the senders, both bases give the same nonces. */
  ghost predicate SkipsKey(h: seq<DagTransaction>, key: Address) {
    forall i :: 0 <= i < |h| ==> h[i].sender != key
  }

  /** A replay over funded vertices in nonce order applies every one of them. */
  lemma {:induction false} ReplayApplies(f: map<Address, nat>, vs: Vertices, order: seq<TxHash>, key: Address, n: nat)
    requires Lined(vs, order) && Payable(vs, order) && Room(f, |order|) && n <= |order|
    requires Funded(f, Applied(vs, order, {}, |order|)) && SkipsKey(Applied(vs, order, {}, |order|), key)
    requires InNonceOrder(Applied(vs, order, {}, |order|), map[key := 1])
    ensures Replay(vs, order, {}, Baseline(f), n).extra == [] && !Replay(vs, order, {}, Baseline(f), n).failed
  {
    hide ReplayOne, Applied, Payable, Funded, SkipsKey, InNonceOrder, ReplayExplained;
    if n > 0 {
      ReplayApplies(f, vs, order, key, n - 1);
      ReplayLaw(f, vs, order, {}, n - 1);
      var r := Replay(vs, order, {}, Baseline(f), n - 1);
      assert {} + ToSet(r.extra) == {};
      ReplayAppliesNext(f, vs, order, key, r, n - 1);
    }
  }

  lemma ReplayAppliesNext(f: map<Address, nat>, vs: Vertices, order: seq<TxHash>, key: Address, r: Replayed, n: nat)
    requires Payable(vs, order) && Room(f, |order|) && n < |order|
    requires !r.failed && r.extra == [] && r.ledger.txCount <= n
    requires ReplayExplained(f, Applied(vs, order, {}, n), r.ledger)
    requires Lined(vs, order)
    requires Funded(f, Applied(vs, order, {}, |order|)) && SkipsKey(Applied(vs, order, {}, |order|), key)
    requires InNonceOrder(Applied(vs, order, {}, |order|), map[key := 1])
    ensures ReplayOne(vs, {}, r, order[n]).extra == [] && !ReplayOne(vs, {}, r, order[n]).failed
  {
    hide Mint, Net, Count, CreditNet, Emitted;
    var h, p := Applied(vs, order, {}, |order|), Applied(vs, order, {}, n);
    assert PayableAt(vs, order, n) && LinedAt(vs, order, n);
    if !Skipped(vs, {}, order[n]) {
      var tx := vs[order[n]];
      AppliedPrefix(vs, order, {}, n, |order|);
      AppliedPrefix(vs, order, {}, n + 1, |order|);
      assert Applied(vs, order, {}, n + 1) == p + [tx];
      assert h[..|p|] == p && h[|p|] == tx;
      assert FundedAt(f, h, |p|);
      Affordable(r.ledger, f, p, tx);
    }
  }

  /** A vertex with the right nonce and enough funds is applied. */
  lemma Affordable(l: Ledger, f: map<Address, nat>, p: seq<DagTransaction>, tx: DagTransaction)
    requires Explained(l, f, p, map[]) && Sound(l, f) && Room(f, l.txCount + 1)
    requires tx.fee == FIXED_TRANSACTION_FEE && tx.Cost() <= U64_MAX
    requires tx.nonce == Count(p, tx.sender) && At(f, tx.sender) + Net(p, tx.sender) >= tx.Cost()
    ensures ApplyEffects(l, tx).1 == Ok
  {
    NeverOverflows(l, f, tx);
    assert At(l.nonces, tx.sender) == tx.nonce && At(l.balances, tx.sender) >= tx.Cost();
  }

  // ----------------------------------------------------------------- theorem

  /** Equal through the accessors, the nonce of `key` aside. */
  ghost predicate SameLedger(l: Ledger, m: Ledger, key: Address) {
    && l.supply == m.supply && l.txCount == m.txCount
    && forall a :: At(l.balances, a) == At(m.balances, a) && At(l.credits, a) == At(m.credits, a)
                   && (a != key ==> At(l.nonces, a) == At(m.nonces, a))
  }

  lemma NoRivals(d: Dag)
    requires Incremental(d)
    ensures Losers(d.graph.vertices, d.graph.weights) == {}
  {
    hide Grown, Settled, Stocked, Funded, AppliedAll;
    var vs := d.graph.vertices;
    forall x, y | Rivals(vs, x, y) ensures false {
      assert Affects(d, {}, x) && Affects(d, {}, y);
      OneSpendPerNonce(d, 1, {}, x, y);
    }
  }

  lemma AppliedAsSender(d: Dag, key: Address)
    requires Incremental(d)
    ensures SkipsKey(AppliedAll(d.graph, {}), key)
       <==> KeyUnused(d, key)
  {
    hide Grown, Explained, InNonceOrder, Sound, Stocked, Funded, AppliedAll;
    assert d.conflicts.Keys + {} == {};
    var vs, h := d.graph.vertices, AppliedAll(d.graph, {});
    forall id | id in vs && !vs[id].IsGenesis() && SkipsKey(h, key) ensures vs[id].sender != key {
      assert Affects(d, {}, id);
      var i := AffectsIndex(d, 1, {}, id);
    }
    forall i | 0 <= i < |h| && h[i].sender == key
      ensures exists id :: id in vs && !vs[id].IsGenesis() && vs[id].sender == key
    {
      var j := AppliedIndex(d, {}, i);
      assert d.graph.order[j] in vs;
    }
  }

  /** When a rebuild finds no losers, its nonces start at 0 for every key, so nobody used
      the key whose incremental nonces start at 1. */
  lemma NoLosersNoKey(d: Dag, key: Address)
    requires Incremental(d) && Allowed(d, ResolveStep) && Base(d.graph, 1) == map[key := 1]
    requires Rebuild(d).0.conflicts == map[]
    ensures SkipsKey(AppliedAll(d.graph, {}), key)
  {
    hide Grown, Explained, Sound, Stocked, Funded, AppliedAll, Rebuild;
    RebuildSettles(d);
    assert d.conflicts.Keys + {} == {} && Rebuild(d).0.conflicts.Keys + {} == {};
    var h := AppliedAll(d.graph, {});
    forall i | 0 <= i < |h| ensures h[i].sender != key {
      assert h[i].nonce == At(Base(d.graph, 1), h[i].sender) + Count(h[..i], h[i].sender);
      assert h[i].nonce == At(Base(d.graph, 0), h[i].sender) + Count(h[..i], h[i].sender);
    }
  }

  lemma KeyUnusedNoLosers(d: Dag, key: Address)
    requires Incremental(d) && Allowed(d, ResolveStep) && Base(d.graph, 1) == map[key := 1]
    requires SkipsKey(AppliedAll(d.graph, {}), key)
    ensures Rebuild(d).0.conflicts == map[]
  {
    hide Grown, Explained, Sound, Funded, InNonceOrder, SkipsKey, Replay;
    var vs, order := d.graph.vertices, d.graph.order;
    assert d.conflicts.Keys + {} == {};
    NoRivals(d);
    StockedPayable(d);
    ReplayApplies(d.faucet, vs, order, key, |order|);
    assert Losers(vs, d.graph.weights) + ToSet<TxHash>([]) == {};
  }

  /** No stored user vertex spends from `key`. */
  ghost predicate KeyUnused(d: Dag, key: Address) {
    forall id {:trigger d.graph.vertices[id]} :: id in d.graph.vertices && !d.graph.vertices[id].IsGenesis() ==>
      d.graph.vertices[id].sender != key
  }

  /** After any run of faucet credits (at any moments) and attaches, a rebuild succeeds; it
      returns the ledger the attaches had reached, and it finds no losers, each if and only if
      no stored user vertex spends from the genesis key. */
  lemma BatchRefinesIncremental(genesis: DagTransaction, steps: seq<Step>)
    requires ProtocolGenesis(genesis) && AllowedRun(WithGenesis(genesis), steps)
    requires forall i :: 0 <= i < |steps| ==> LocalStep(steps[i])
    requires Allowed(Run(WithGenesis(genesis), steps), ResolveStep)
    ensures var d := Run(WithGenesis(genesis), steps);
      var (r, outcome) := Rebuild(d);
      && outcome == Ok
      && (SameLedger(d.ledger, r.ledger, genesis.sender) <==> KeyUnused(d, genesis.sender))
      && (r.conflicts == map[] <==> KeyUnused(d, genesis.sender))
      && (r.conflicts == map[] ==> r == d.(ledger := r.ledger))
  {
    hide Run, AllowedRun, WithGenesis, Allowed, Rebuild, SkipsKey, Funded, InNonceOrder, Sound;
    hide Grown, SameLedger, KeyUnused;
    IncrementalRun(genesis, steps);
    var d, key := Run(WithGenesis(genesis), steps), genesis.sender;
    ResolveRoom(d);
    RebuildSettles(d);
    AppliedAsSender(d, key);
    if SkipsKey(AppliedAll(d.graph, {}), key) { KeyUnusedNoLosers(d, key); }
    if Rebuild(d).0.conflicts == map[] {
      NoLosersNoKey(d, key);
      SameExplanation(d, Rebuild(d).0, key);
      RebuildOnly(d);
    } else {
      LosersShow(d, Rebuild(d).0, key);
    }
  }

  /** A loser is missing from the count of confirmed vertices. */
  lemma LosersShow(d: Dag, r: Dag, key: Address)
    requires Inv(d, 1, {}) && Inv(r, 0, {}) && r.graph == d.graph && d.conflicts == map[] && r.conflicts != map[]
    ensures !SameLedger(d.ledger, r.ledger, key)
  {
    hide Inv;
    CountsBalance(d, 1, {});
    CountsBalance(r, 0, {});
    var x :| x in r.conflicts;
    assert |r.conflicts| > 0;
  }

  lemma ResolveRoom(d: Dag)
    ensures Allowed(d, ResolveStep) <==> RoomFor(d, 0)
  {}

  lemma RebuildOnly(d: Dag)
    ensures var r := Rebuild(d).0; r == d.(ledger := r.ledger, conflicts := r.conflicts)
  {}

  lemma SameExplanation(d: Dag, r: Dag, key: Address)
    requires Settled(d, 1, {}) && Settled(r, 0, {}) && r.graph == d.graph && r.faucet == d.faucet
    requires d.conflicts == map[] && r.conflicts == map[] && Base(d.graph, 1) == map[key := 1]
    ensures SameLedger(d.ledger, r.ledger, key)
  {
    hide Net, CreditNet, Count, AppliedAll, InNonceOrder, Sound;
    assert d.conflicts.Keys + {} == {} && r.conflicts.Keys + {} == {};
    forall a ensures At(d.ledger.balances, a) == At(r.ledger.balances, a) && At(d.ledger.credits,
                                                                                a) == At(r.ledger.credits, a)
      && (a != key ==> At(d.ledger.nonces, a) == At(r.ledger.nonces, a)) {}
  }

  // ----------------------------------------------------------------- witness

  const GENESIS: DagTransaction := DagTransaction(1, NULL_PARENT, NULL_PARENT, 1, 1, 0, 0, 0, true, true, [], [])

  /** The genesis key's first spend that an attach takes: nonce 1. */
  const KEY_SPEND: DagTransaction := DagTransaction(2, 1, 1, 1, 8, 5, FIXED_TRANSACTION_FEE, 1, true, true, [], [])

  const FUNDED: Dag := CreditAccount(WithGenesis(GENESIS), 1, 1_000_000)

  lemma KeyCredited()
    ensures ProtocolGenesis(GENESIS) && Inv(FUNDED, 1, {}) && Allowed(WithGenesis(GENESIS), CreditStep(1, 1_000_000))
    ensures FUNDED.graph == Insert(EMPTY, GENESIS) && At(FUNDED.ledger.balances, 1) == 1_000_000
    ensures At(FUNDED.ledger.nonces, 1) == 1
    ensures FUNDED.ledger.txCount == 0 && FUNDED.conflicts == map[] && Sum(FUNDED.faucet) == 1_000_000
  {
    hide Insert, Inv;
    GenesisInv(GENESIS);
    GenesisAttaches(GENESIS);
    var none: map<Address, nat> := map[];
    assert Sum(none) == 0;
    CreditKeeps(WithGenesis(GENESIS), 1, {}, 1, 1_000_000);
  }

  /** The attach takes it. */
  lemma KeyTaken()
    ensures CheckVertex(FUNDED.graph.vertices, KEY_SPEND) == Ok && ApplyEffects(FUNDED.ledger, KEY_SPEND).1 == Ok
    ensures Attach(FUNDED, KEY_SPEND)
          == (FUNDED.(graph := Insert(FUNDED.graph, KEY_SPEND), ledger := ApplyEffects(FUNDED.ledger, KEY_SPEND).0), Ok)
    ensures Allowed(FUNDED, AttachStep(KEY_SPEND))
  {
    hide Insert, Settled, Grown, Mint, CheckVertex, AllOffered, ApplyEffects, Attach, FUNDED;
    KeyCredited();
    GenesisFields(GENESIS);
    KeyChecks(FUNDED);
    KeyMoves(FUNDED.ledger);
    AttachClean(FUNDED, 1, {}, KEY_SPEND);
  }

  lemma KeyAttached()
    ensures Allowed(FUNDED, AttachStep(KEY_SPEND)) && Attach(FUNDED, KEY_SPEND).1 == Ok
    ensures var d := Attach(FUNDED, KEY_SPEND).0;
      && Inv(d, 1, {}) && d.graph.vertices == map[1 := GENESIS, 2 := KEY_SPEND] && d.graph.genesis == 1
      && |d.graph.order| == 2
      && d.conflicts == map[] && d.ledger.txCount == 1 && d.faucet == FUNDED.faucet
  {
    hide Insert, Settled, Grown, Mint, CheckVertex, AllOffered, ApplyEffects, Attach, FUNDED;
    KeyCredited();
    KeyTaken();
    GenesisFields(GENESIS);
    AttachKeeps(FUNDED, 1, {}, KEY_SPEND);
    InsertExtends(FUNDED.graph, KEY_SPEND);
    KeyCounted(FUNDED, 1);
  }

  lemma KeyCounted(d: Dag, b: nat)
    requires Inv(d, b, {}) && d.ledger.txCount == 0 && ApplyEffects(d.ledger, KEY_SPEND).1 == Ok
    ensures ApplyEffects(d.ledger, KEY_SPEND).0.txCount == 1
  {
    hide Grown, ApplyEffects, AppliedAll, Net, CreditNet, Count, InNonceOrder;
    ApplyAt(d.ledger, KEY_SPEND, 1);
  }

  lemma KeyChecks(d: Dag)
    requires d.graph.vertices == map[1 := GENESIS]
    ensures CheckVertex(d.graph.vertices, KEY_SPEND) == Ok
  {}

  lemma KeyMoves(l: Ledger)
    requires At(l.balances, 1) == 1_000_000 && At(l.nonces, 1) == 1
    ensures ApplyEffects(l, KEY_SPEND).1 == Ok || ApplyEffects(l, KEY_SPEND).1 == Err(Overflow)
  {
    hide Mint;
  }

  lemma KeyRoom(d: Dag)
    requires d.faucet == FUNDED.faucet && |d.graph.order| == 2
    ensures RoomFor(d, 0) && Allowed(d, ResolveStep)
  {
    KeyCredited();
  }

  lemma TwoStepRun(d: Dag, s: Step, t: Step)
    ensures Run(d, [s, t]) == Exec(Exec(d, s), t)
    ensures AllowedRun(d, [s, t]) <==> Allowed(d, s) && Allowed(Exec(d, s), t)
  {
    hide Exec, Allowed;
    var one, both := [s], [s, t];
    assert one[..|one| - 1] == [] && both[..|both| - 1] == one;
    assert Run(d, []) == d && AllowedRun(d, []);
  }

  /** The rebuild drops it: nonces start at 0. */
  lemma KeyDropped(d: Dag)
    requires Inv(d, 1, {}) && d.graph.vertices.Keys == {1, 2} && d.graph.genesis == 1 && RoomFor(d, 0)
    requires Rebuild(d).0.conflicts != map[]
    ensures Rebuild(d).0.conflicts.Keys == {2} && Rebuild(d).0.ledger.txCount == 0
  {
    hide Grown, Rebuild, AllOffered;
    RebuildSettles(d);
    var r := Rebuild(d).0;
    CountsBalance(r, 0, {});
    assert r.conflicts.Keys <= {2};
    assert r.conflicts.Keys != {};
    assert r.conflicts.Keys == {2};
    assert |r.conflicts| == |r.conflicts.Keys|;
  }

  /** Credit the genesis key and attach its spend: the attach confirms it, a rebuild drops it. */
  lemma GenesisKeyShows() returns (steps: seq<Step>)
    ensures ProtocolGenesis(GENESIS) && AllowedRun(WithGenesis(GENESIS), steps)
    ensures forall i :: 0 <= i < |steps| ==> LocalStep(steps[i])
    ensures var d := Run(WithGenesis(GENESIS), steps);
      var (r, outcome) := Rebuild(d);
      && outcome == Ok && d.conflicts == map[] && d.ledger.txCount == 1
      && r.conflicts.Keys == {2} && r.ledger.txCount == 0 && !SameLedger(d.ledger, r.ledger, GENESIS.sender)
  {
    hide Insert, Rebuild, Inv, Attach, WithGenesis, SameLedger, Allowed, RoomFor, Run, AllowedRun;
    steps := [CreditStep(1, 1_000_000), AttachStep(KEY_SPEND)];
    KeyCredited();
    KeyAttached();
    TwoStepRun(WithGenesis(GENESIS), CreditStep(1, 1_000_000), AttachStep(KEY_SPEND));
    var d := Attach(FUNDED, KEY_SPEND).0;
    KeyRoom(d);
    BatchRefinesIncremental(GENESIS, steps);
    assert d.graph.vertices[2].sender == 1;
    KeyDropped(d);
  }
}
