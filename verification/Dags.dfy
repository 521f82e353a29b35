/** `KronDAG` (src/dag/engine.rs) as a value: every ledger-changing operation as a
    function from the state before to the state after and the outcome. */
module Dags {
  import opened Basics
  import opened Transactions
  import opened Ledgers
  import opened Graphs

  datatype Dag = Dag(graph: Graph, ledger: Ledger, faucet: map<Address, nat>, conflicts: map<TxHash, TxHash>)

  const NEW: Dag := Dag(EMPTY, Ledger(map[], map[], map[], 0, 0), map[], map[])

  function CreditAccount(d: Dag, a: Address, amount: nat): Dag {
    if amount == 0 then d
    else d.(ledger := d.ledger.(balances := d.ledger.balances[a := SatAdd(At(d.ledger.balances, a), amount)]),
            faucet := d.faucet[a := SatAdd(At(d.faucet, a), amount)])
  }

  /** `attach_vertex_and_maybe_mint` with minting on. */
  function Attach(d: Dag, tx: DagTransaction): (Dag, Outcome) {
    var check := CheckVertex(d.graph.vertices, tx);
    var (moved, outcome) := Transfer(d.ledger, tx);
    if check != Ok then (d, check)
    else if outcome != Ok then (d, outcome)
    else
      var stored := d.(graph := Insert(d.graph, tx), ledger := moved);
      if tx.IsGenesis() then (stored, Ok)
      else
        var (minted, ok) := Mint(moved, tx.fee, tx.sender, tx.ProvenRelayNodes());
        (stored.(ledger := minted), if ok then Ok else Err(Overflow))
  }

  function InsertGraphOnly(d: Dag, tx: DagTransaction): (Dag, Outcome) {
    var check := CheckVertex(d.graph.vertices, tx);
    if check == Ok then (d.(graph := Insert(d.graph, tx)), Ok) else (d, check)
  }

  // -------------------------------------------------------- conflict rule

  /** Two user spends of one sender that carry the same nonce. */
  predicate Rivals(vs: Vertices, a: TxHash, b: TxHash) {
    && a in vs && b in vs && a != b
    && !vs[a].IsGenesis() && !vs[b].IsGenesis()
    && vs[a].sender == vs[b].sender && vs[a].nonce == vs[b].nonce
  }

  /** `b` ranks above `a`: (cumulative weight, id), compared lexicographically. */
  predicate Outranks(weights: map<TxHash, nat>, b: TxHash, a: TxHash) {
    At(weights, b) > At(weights, a) || (At(weights, b) == At(weights, a) && b > a)
  }

  ghost predicate LosesTo(vs: Vertices, weights: map<TxHash, nat>, a: TxHash, b: TxHash) {
    Rivals(vs, a, b) && Outranks(weights, b, a)
  }

  /** Same-nonce losers: outranked by some rival. */
  ghost function Losers(vs: Vertices, weights: map<TxHash, nat>): set<TxHash> {
    set a | a in vs && exists b :: LosesTo(vs, weights, a, b)
  }

  /** The rival of `a` that no rival outranks. */
  ghost predicate Wins(vs: Vertices, weights: map<TxHash, nat>, a: TxHash, w: TxHash) {
    LosesTo(vs, weights, a, w) && w !in Losers(vs, weights)
  }

  // ----------------------------------------------------------------- replay

  datatype Replayed = Replayed(ledger: Ledger, extra: seq<TxHash>, failed: bool)

  predicate Skipped(vs: Vertices, skip: set<TxHash>, id: TxHash) {
    id in skip || id !in vs || vs[id].IsGenesis()
  }

  /** Replay of the first n vertices of `order`, same-nonce losers left out. */
  function Replay(vs: Vertices, order: seq<TxHash>, losers: set<TxHash>, start: Ledger, n: nat): Replayed
    requires n <= |order|
  {
    if n == 0 then Replayed(start, [], false)
    else ReplayOne(vs, losers, Replay(vs, order, losers, start, n - 1), order[n - 1])
  }

  function ReplayOne(vs: Vertices, losers: set<TxHash>, r: Replayed, id: TxHash): Replayed {
    if r.failed || Skipped(vs, losers, id) then r
    else
      var (l, outcome) := ApplyEffects(r.ledger, vs[id]);
      if outcome == Ok then r.(ledger := l)
      else if outcome.error.DoubleSpend? || outcome.error.InsufficientBalance? then r.(extra := r.extra + [id])
      else r.(ledger := l, failed := true)
  }

  /** The ledger a rebuild starts from: the whole faucet and nothing else. */
  function Baseline(faucet: map<Address, nat>): Ledger {
    Ledger(faucet, map[], map[], 0, 0)
  }

  ghost function ReplayAll(d: Dag): Replayed {
    Replay(d.graph.vertices, d.graph.order, Losers(d.graph.vertices, d.graph.weights), Baseline(d.faucet),
           |d.graph.order|)
  }

  /** Every same-nonce loser has exactly one winner in its group. */
  lemma WinnerExists(vs: Vertices, weights: map<TxHash, nat>, a: TxHash, s: set<TxHash>) returns (w: TxHash)
    requires a in vs && !vs[a].IsGenesis() && a in s
    ensures w == a || LosesTo(vs, weights, a, w)
    ensures w in s && forall b :: b in s ==> !LosesTo(vs, weights, w, b)
    decreases s
  {
    if b :| b in s && LosesTo(vs, weights, a, b) {
      w := WinnerExists(vs, weights, b, s - {a});
      forall c | c in s ensures !LosesTo(vs, weights, w, c) {
        if c == a { assert w == b || LosesTo(vs, weights, b, w); }
      }
    } else {
      w := a;
    }
  }

  lemma LoserHasWinner(vs: Vertices, weights: map<TxHash, nat>, a: TxHash)
    requires a in Losers(vs, weights)
    ensures exists w :: Wins(vs, weights, a, w)
  {
    var w := WinnerExists(vs, weights, a, vs.Keys);
    assert w != a;
    assert Wins(vs, weights, a, w);
  }

  lemma WinnerUnique(vs: Vertices, weights: map<TxHash, nat>, a: TxHash, w: TxHash, x: TxHash)
    requires Wins(vs, weights, a, w) && Wins(vs, weights, a, x)
    ensures w == x
  {
    assert w == x || LosesTo(vs, weights, w, x) || LosesTo(vs, weights, x, w);
  }

  ghost function WinnerOf(vs: Vertices, weights: map<TxHash, nat>, a: TxHash): (w: TxHash)
    requires a in Losers(vs, weights)
    ensures Wins(vs, weights, a, w)
  {
    LoserHasWinner(vs, weights, a);
    var w :| Wins(vs, weights, a, w);
    w
  }

  /** Losers to their winner, overlapping spends that lost in replay to NULL_PARENT. */
  ghost function ConflictMap(vs: Vertices, weights: map<TxHash, nat>, extra: set<TxHash>): map<TxHash, TxHash> {
    map a | a in Losers(vs, weights) + extra ::
      if a in Losers(vs, weights) then WinnerOf(vs, weights, a) else NULL_PARENT
  }

  ghost function Rebuild(d: Dag): (Dag, Outcome) {
    var r := ReplayAll(d);
    if r.failed then (d.(ledger := r.ledger), Err(Overflow))
    else (d.(ledger := r.ledger, conflicts := ConflictMap(d.graph.vertices, d.graph.weights, ToSet(r.extra))), Ok)
  }

  datatype Accepted = Stored(isNew: bool) | Rejected(error: DagError)

  /** Attach, or store a conflicting spend and rebuild. */
  ghost function Accept(d: Dag, tx: DagTransaction): (Dag, Accepted) {
    if tx.id in d.graph.vertices then (d, Stored(false))
    else
      var (attached, outcome) := Attach(d, tx);
      if outcome == Ok then (attached, Stored(true))
      else if outcome.error.DoubleSpend? || outcome.error.InsufficientBalance? then
        var (stored, check) := InsertGraphOnly(attached, tx);
        if check != Ok then (stored, Rejected(check.error))
        else
          var (rebuilt, o) := Rebuild(stored);
          (rebuilt, if o == Ok then Stored(true) else Rejected(o.error))
      else (attached, Rejected(outcome.error))
  }

  datatype Merged = Inserted(count: nat) | MissingParent(parent: TxHash) | AttachFailed(error: DagError) | CyclicBatch

  /** `u32::saturating_add` caps the inserted count. */
  function SatU32(n: nat): nat { if n > 0xFFFF_FFFF then 0xFFFF_FFFF else n }

  /** The insert loop of `merge_offline_graphs` over an ordered batch: state and result
      after its first n vertices. */
  function MergeLoop(d: Dag, txs: seq<DagTransaction>, n: nat): (Dag, Merged)
    requires n <= |txs|
  {
    if n == 0 then (d, Inserted(0))
    else
      var (m, r) := MergeLoop(d, txs, n - 1);
      if r.Inserted? then MergeOne(m, txs[n - 1], r.count) else (m, r)
  }

  function MergeOne(d: Dag, tx: DagTransaction, count: nat): (Dag, Merged) {
    var vs := d.graph.vertices;
    if tx.id in vs then (d, Inserted(count))
    else if !tx.IsGenesis() && (tx.parent1 == NULL_PARENT || tx.parent1 !in vs) then (d, MissingParent(tx.parent1))
    else if !tx.IsGenesis() && (tx.parent2 == NULL_PARENT || tx.parent2 !in vs) then (d, MissingParent(tx.parent2))
    else
      var (stored, outcome) := InsertGraphOnly(d, tx);
      if outcome == Ok then (stored, Inserted(SatU32(count + 1))) else (stored, AttachFailed(outcome.error))
  }

  /** Insert an ordered batch, then rebuild once if anything was new. */
  ghost function MergeOrdered(d: Dag, txs: seq<DagTransaction>): (Dag, Merged) {
    var (m, r) := MergeLoop(d, txs, |txs|);
    if !r.Inserted? || r.count == 0 then (m, r)
    else
      var (rebuilt, o) := Rebuild(m);
      (rebuilt, if o == Ok then r else AttachFailed(o.error))
  }
}
