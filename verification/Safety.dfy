/** What a client of `KronDAG` may rely on after any run. */
module Safety {
  import opened Basics
  import opened Economics
  import opened Transactions
  import opened Ledgers
  import opened Graphs
  import opened Building
  import opened History
  import opened Dags
  import opened Settlement
  import opened Steps
  import opened Runs

  // ---------------------------------------------------------------- genesis

  /** The protocol genesis vertex: no parents, nothing moved, validly self-signed. */
  ghost predicate ProtocolGenesis(tx: DagTransaction) {
    && tx.IsGenesis() && tx.id != NULL_PARENT
    && tx.amount == 0 && tx.fee == 0 && tx.nonce == 0 && tx.sender == tx.recipient
    && tx.keyMatchesSender && tx.signatureValid && tx.VerifyRelayProofs()
  }

  /** `KronDAG::with_genesis` */
  function WithGenesis(tx: DagTransaction): Dag { Attach(NEW, tx).0 }

  lemma GenesisAttaches(tx: DagTransaction)
    requires ProtocolGenesis(tx)
    ensures Attach(NEW, tx).1 == Ok
    ensures WithGenesis(tx)
          == Dag(Insert(EMPTY, tx), Ledger(map[tx.sender := 0], map[tx.sender := 1], map[], 0, 0), map[], map[])
  {}

  lemma GenesisGrown(tx: DagTransaction)
    requires ProtocolGenesis(tx)
    ensures Grown(Insert(EMPTY, tx)) && Listed(Insert(EMPTY, tx)) == [tx]
  {
    hide Insert, CheckVertex;
    GenesisAttaches(tx);
    assert CheckVertex(EMPTY.vertices, tx) == Ok by { GenesisChecks(tx); }
    BuildStep([], tx);
    assert [] + [tx] == [tx];
    BuildGrown([tx]);
  }

  lemma GenesisChecks(tx: DagTransaction)
    requires ProtocolGenesis(tx)
    ensures CheckVertex(EMPTY.vertices, tx) == Ok
  {}

  /** A fresh node satisfies the invariant; its genesis key has nonce 1. */
  lemma GenesisInv(tx: DagTransaction)
    requires ProtocolGenesis(tx)
    ensures Inv(WithGenesis(tx), 1, {})
  {
    hide Insert, Grown, CheckVertex, Attach;
    GenesisAttaches(tx);
    GenesisGrown(tx);
    var d := WithGenesis(tx);
    GenesisFields(tx);
    assert d.conflicts.Keys + {} == {};
    var none: map<Address, nat> := map[];
    SumUpdate(none, tx.sender, 0);
    assert none[tx.sender := 0] == map[tx.sender := 0] && Sum(none) == 0;
  }

  lemma GenesisFields(tx: DagTransaction)
    requires ProtocolGenesis(tx)
    ensures var g := Insert(EMPTY, tx);
      && g.vertices == map[tx.id := tx] && g.order == [tx.id] && g.genesis == tx.id && AppliedAll(g, {}) == []
  {
    var g := Insert(EMPTY, tx);
    assert Applied(g.vertices, g.order, {}, 0) == [] && Skipped(g.vertices, {}, g.order[0]);
  }

  // ------------------------------------------------------------------- runs

  ghost function Run(d: Dag, steps: seq<Step>): Dag
    decreases |steps|
  {
    if steps == [] then d else Exec(Run(d, steps[..|steps| - 1]), steps[|steps| - 1])
  }

  /** Every step of the run is allowed where it is taken. */
  ghost predicate AllowedRun(d: Dag, steps: seq<Step>)
    decreases |steps|
  {
    steps != [] ==>
      AllowedRun(d, steps[..|steps| - 1]) && Allowed(Run(d, steps[..|steps| - 1]), steps[|steps| - 1])
  }

  lemma {:induction false} RunKeeps(d: Dag, b: nat, unsettled: set<TxHash>, steps: seq<Step>)
      returns (b': nat, unsettled': set<TxHash>)
    requires Inv(d, b, unsettled) && AllowedRun(d, steps)
    ensures Inv(Run(d, steps), b', unsettled')
    ensures unsettled == {} && (forall i :: 0 <= i < |steps| ==> !steps[i].MergeStep?) ==> unsettled' == {}
  {
    hide Inv, Exec, Allowed;
    b', unsettled' := b, unsettled;
    if steps != [] {
      var prefix := steps[..|steps| - 1];
      b', unsettled' := RunKeeps(d, b, unsettled, prefix);
      b', unsettled' := StepKeeps(Run(d, prefix), b', unsettled', steps[|steps| - 1]);
    }
  }

  /** No run changes the genesis or a stored vertex, or takes one away. */
  lemma {:induction false} RunGrows(d: Dag, b: nat, unsettled: set<TxHash>, steps: seq<Step>)
    requires Inv(d, b, unsettled) && AllowedRun(d, steps)
    ensures Run(d, steps).graph.genesis == d.graph.genesis && Kept(d.graph.vertices, Run(d, steps).graph.vertices)
  {
    hide Inv, Exec, Allowed;
    if steps != [] {
      var prefix := steps[..|steps| - 1];
      RunGrows(d, b, unsettled, prefix);
      var b', unsettled' := RunKeeps(d, b, unsettled, prefix);
      StepGrows(Run(d, prefix), b', unsettled', steps[|steps| - 1]);
      KeptThen(d.graph.vertices, Run(d, prefix).graph.vertices, Run(d, steps).graph.vertices);
    }
  }

  lemma KeptThen(vs: Vertices, ws: Vertices, xs: Vertices)
    requires Kept(vs, ws) && Kept(ws, xs)
    ensures Kept(vs, xs)
  {
    forall h | h in vs ensures h in xs && xs[h] == vs[h] { assert ws[h] == vs[h]; }
  }

  // ----------------------------------------------------------- conservation

  /** The sum of balances is the sum of faucet credits plus the minted supply, and the
      supply is the emission schedule at the confirmed count. */
  ghost predicate Conserved(d: Dag) {
    && Sum(d.ledger.balances) == Sum(d.faucet) + d.ledger.supply
    && d.ledger.supply == (if Schedule(d.ledger.txCount) < HARD_CAP then Schedule(d.ledger.txCount) else HARD_CAP)
    && (d.ledger.supply == HARD_CAP <==> d.ledger.txCount >= CAP_COUNT)
  }

  /** After any allowed run, failed merges included, value is conserved and minted on schedule. */
  lemma ConservedOverRuns(genesis: DagTransaction, steps: seq<Step>)
    requires ProtocolGenesis(genesis) && AllowedRun(WithGenesis(genesis), steps)
    ensures Conserved(Run(WithGenesis(genesis), steps))
    ensures Shaped(Run(WithGenesis(genesis), steps).graph)
  {
    hide Run, AllowedRun, WithGenesis, Grown, Shaped, Schedule, Emitted, Explained, InNonceOrder, AppliedAll;
    GenesisInv(genesis);
    var b, unsettled := RunKeeps(WithGenesis(genesis), 1, {}, steps);
    var d := Run(WithGenesis(genesis), steps);
    GrownShaped(d.graph);
    EmissionSchedule(d.ledger.txCount);
  }

  // ----------------------------------------------------- double-spend safety

  ghost predicate Carries(h: seq<DagTransaction>, s: Address, k: nat) {
    exists i :: 0 <= i < |h| && h[i].sender == s && h[i].nonce == k
  }

  /** The vertices of `s` in `h` climb the nonces from base to base + count without gaps. */
  ghost predicate Ladder(h: seq<DagTransaction>, base: map<Address, nat>, s: Address) {
    && (forall i :: 0 <= i < |h| && h[i].sender == s ==> At(base, s) <= h[i].nonce < At(base, s) + Count(h, s))
    && (forall i, j :: 0 <= i < j < |h| && h[i].sender == s && h[j].sender == s ==> h[i].nonce < h[j].nonce)
    && (forall k :: At(base, s) <= k < At(base, s) + Count(h, s) ==> Carries(h, s, k))
  }

  lemma {:induction false} NonceLadder(h: seq<DagTransaction>, base: map<Address, nat>, s: Address)
    requires InNonceOrder(h, base)
    ensures Ladder(h, base, s)
  {
    hide Count, Ladder;
    if h == [] {
      NoRungs(base, s);
    } else {
      var p, last := h[..|h| - 1], h[|h| - 1];
      assert h == p + [last];
      PrefixOrdered(h, base);
      NonceLadder(p, base, s);
      LadderStep(p, base, s, last);
    }
  }

  lemma NoRungs(base: map<Address, nat>, s: Address)
    ensures Ladder([], base, s)
  {}

  lemma PrefixOrdered(h: seq<DagTransaction>, base: map<Address, nat>)
    requires h != [] && InNonceOrder(h, base)
    ensures InNonceOrder(h[..|h| - 1], base)
    ensures h[|h| - 1].nonce == At(base, h[|h| - 1].sender) + Count(h[..|h| - 1], h[|h| - 1].sender)
  {
    var p := h[..|h| - 1];
    forall i | 0 <= i < |p| ensures p[i].nonce == At(base, p[i].sender) + Count(p[..i], p[i].sender) {
      assert p[..i] == h[..i];
    }
  }

  lemma LadderStep(p: seq<DagTransaction>, base: map<Address, nat>, s: Address, last: DagTransaction)
    requires Ladder(p, base, s) && last.nonce == At(base, last.sender) + Count(p, last.sender)
    ensures Ladder(p + [last], base, s)
  {
    var h := p + [last];
    hide Count, Carries;
    CountMore(p, last, s);
    forall k | At(base, s) <= k < At(base, s) + Count(h, s) ensures Carries(h, s, k) {
      if k < At(base, s) + Count(p, s) { assert Carries(p, s, k); }
      CarriesMore(p, last, s, k);
    }
  }

  lemma CountMore(p: seq<DagTransaction>, last: DagTransaction, s: Address)
    ensures Count(p + [last], s) == Count(p, s) + if last.sender == s then 1 else 0
  {
    assert (p + [last])[..|p|] == p;
  }

  lemma CarriesMore(p: seq<DagTransaction>, last: DagTransaction, s: Address, k: nat)
    ensures Carries(p, s, k) || (last.sender == s && last.nonce == k) ==> Carries(p + [last], s, k)
  {
    var h := p + [last];
    if i :| 0 <= i < |p| && p[i].sender == s && p[i].nonce == k {
      assert h[i] == p[i];
    } else {
      assert h[|p|] == last;
    }
  }

  /** A stored user vertex that affects balances. */
  ghost predicate Affects(d: Dag, unsettled: set<TxHash>, id: TxHash) {
    id in d.graph.vertices && !Skipped(d.graph.vertices, d.conflicts.Keys + unsettled, id)
  }

  lemma AffectsIndex(d: Dag, b: nat, unsettled: set<TxHash>, id: TxHash) returns (i: nat)
    requires Inv(d, b, unsettled) && Affects(d, unsettled, id)
    ensures var h := AppliedAll(d.graph, d.conflicts.Keys + unsettled);
      i < |h| && h[i] == d.graph.vertices[id]
  {
    hide Grown, Explained, InNonceOrder, Sound;
    var skip := d.conflicts.Keys + unsettled;
    GrownLined(d.graph);
    assert id in ToSet(d.graph.order);
    var k :| 0 <= k < |d.graph.order| && d.graph.order[k] == id;
    AppliedHas(d.graph.vertices, d.graph.order, skip, |d.graph.order|, k);
    i :| i < |AppliedAll(d.graph, skip)| && AppliedAll(d.graph, skip)[i] == d.graph.vertices[id];
  }

  lemma StoredUnderId(d: Dag, b: nat, unsettled: set<TxHash>, id: TxHash)
    requires Inv(d, b, unsettled) && id in d.graph.vertices
    ensures d.graph.vertices[id].id == id
  {
    GrownShaped(d.graph);
  }

  /** At most one vertex per (sender, nonce) affects balances. */
  lemma OneSpendPerNonce(d: Dag, b: nat, unsettled: set<TxHash>, x: TxHash, y: TxHash)
    requires Inv(d, b, unsettled) && Affects(d, unsettled, x) && Affects(d, unsettled, y)
    requires d.graph.vertices[x].sender == d.graph.vertices[y].sender
    requires d.graph.vertices[x].nonce == d.graph.vertices[y].nonce
    ensures x == y
  {
    hide Grown, Explained, Sound, AppliedAll;
    var h := AppliedAll(d.graph, d.conflicts.Keys + unsettled);
    var i := AffectsIndex(d, b, unsettled, x);
    var j := AffectsIndex(d, b, unsettled, y);
    StoredUnderId(d, b, unsettled, x);
    StoredUnderId(d, b, unsettled, y);
    NonceLadder(h, Base(d.graph, b), d.graph.vertices[x].sender);
    assert i == j;
  }

  /** For a sender other than the genesis key the vertices that affect balances carry
      exactly the nonces 0 .. next_nonce - 1. */
  lemma NoncesExact(d: Dag, b: nat, unsettled: set<TxHash>, s: Address, k: nat)
    requires Inv(d, b, unsettled) && At(Base(d.graph, b), s) == 0
    ensures k < At(d.ledger.nonces, s) <==>
      exists id :: Affects(d, unsettled, id) && d.graph.vertices[id].sender == s && d.graph.vertices[id].nonce == k
  {
    hide Grown, Sound, AppliedAll, InNonceOrder;
    var skip := d.conflicts.Keys + unsettled;
    var h, base := AppliedAll(d.graph, skip), Base(d.graph, b);
    NonceLadder(h, base, s);
    assert At(d.ledger.nonces, s) == Count(h, s);
    if k < At(d.ledger.nonces, s) {
      assert Carries(h, s, k);
      var i :| 0 <= i < |h| && h[i].sender == s && h[i].nonce == k;
      var j := AppliedIndex(d, skip, i);
      StoredUnderId(d, b, unsettled, d.graph.order[j]);
      assert Affects(d, unsettled, d.graph.order[j]);
    }
    forall id | Affects(d, unsettled, id) && d.graph.vertices[id].sender == s && d.graph.vertices[id].nonce == k
      ensures k < At(d.ledger.nonces, s)
    {
      var i := AffectsIndex(d, b, unsettled, id);
    }
  }

  lemma AppliedIndex(d: Dag, skip: set<TxHash>, i: nat) returns (j: nat)
    requires i < |AppliedAll(d.graph, skip)|
    ensures j < |d.graph.order| && !Skipped(d.graph.vertices, skip, d.graph.order[j])
    ensures AppliedAll(d.graph, skip)[i] == d.graph.vertices[d.graph.order[j]]
  {
    j := AppliedFrom(d.graph.vertices, d.graph.order, skip, |d.graph.order|, i);
  }

  /** Confirmed vertices, conflicts and genesis account for every stored vertex exactly
      when no merge has left vertices unsettled. */
  lemma CountsBalance(d: Dag, b: nat, unsettled: set<TxHash>)
    requires Inv(d, b, unsettled)
    ensures d.ledger.txCount + |d.conflicts| + |unsettled| + 1 == |d.graph.vertices|
    ensures d.ledger.txCount + |d.conflicts| + 1 == |d.graph.vertices| <==> unsettled == {}
  {
    hide Settled;
    CountBelow(d, b, unsettled);
    GrownLined(d.graph);
  }
}
