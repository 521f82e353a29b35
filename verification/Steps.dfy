/** Every step of `KronDAG` keeps the invariant, and with room none overflows. */
module Steps {
  import opened Basics
  import opened Economics
  import opened Transactions
  import opened Ledgers
  import opened Graphs
  import opened Building
  import opened History
  import opened Dags
  import opened Settlement

  // ------------------------------------------------------------------ graph

  /** `r` is `g` with the user vertex `tx` appended; weights, children and tips aside. */
  ghost predicate Extends(g: Graph, tx: DagTransaction, r: Graph) {
    && tx.id !in g.vertices && !tx.IsGenesis()
    && r.vertices == g.vertices[tx.id := tx] && r.order == g.order + [tx.id] && r.genesis == g.genesis
  }

  lemma InsertExtends(g: Graph, tx: DagTransaction)
    requires Grown(g) && tx.id != NULL_PARENT && CheckVertex(g.vertices, tx) == Ok
    ensures Extends(g, tx, Insert(g, tx))
  {
    GrownShaped(g);
    CheckedFits(g.vertices, tx);
    InsertStores(g, tx);
  }

  lemma StockedInsert(d: Dag, tx: DagTransaction)
    requires Stocked(d) && Offered(tx) && CheckVertex(d.graph.vertices, tx) == Ok
    ensures Grown(Insert(d.graph, tx)) && AllOffered(Insert(d.graph, tx)) && Extends(d.graph, tx, Insert(d.graph, tx))
    ensures Listed(Insert(d.graph, tx)) == Listed(d.graph) + [tx]
  {
    InsertExtends(d.graph, tx);
    InsertGrown(d.graph, tx);
  }

  /** Storing one more vertex leaves the applied list alone, or appends to it. */
  lemma AppliedInsert(g: Graph, tx: DagTransaction, r: Graph, skip: set<TxHash>, skip': set<TxHash>)
    requires Lined(g.vertices, g.order) && Extends(g, tx, r)
    requires skip <= g.vertices.Keys && skip <= skip' <= skip + {tx.id}
    ensures AppliedAll(r, skip') == AppliedAll(g, skip) + if tx.id in skip' then [] else [tx]
  {
    var n := |g.order|;
    forall i | 0 <= i < n
      ensures g.order[i] in g.vertices && g.order[i] in r.vertices && r.vertices[g.order[i]] == g.vertices[g.order[i]]
      ensures g.order[i] in skip <==> g.order[i] in skip'
    {
      assert LinedAt(g.vertices, g.order, i);
    }
    AppliedSame(g.vertices, r.vertices, g.order, r.order, skip, skip', n);
    assert r.order[n] == tx.id;
  }

  lemma BaseKept(g: Graph, tx: DagTransaction, r: Graph, b: nat)
    requires g.genesis in g.vertices && Extends(g, tx, r)
    ensures Base(r, b) == Base(g, b)
  {}

  /** The count of applied vertices is below the vertex count. */
  lemma CountBelow(d: Dag, b: nat, unsettled: set<TxHash>)
    requires Inv(d, b, unsettled)
    ensures d.ledger.txCount + |d.conflicts| + |unsettled| + 1 == |d.graph.order|
  {
    var skip := d.conflicts.Keys + unsettled;
    AppliedCount(d.graph, skip);
    GrownLined(d.graph);
    assert |skip| == |d.conflicts.Keys| + |unsettled|;
  }

  // ----------------------------------------------------------------- attach

  /** For a user vertex that passes the checks, attach is the graph insert plus the effects. */
  lemma AttachIsApply(d: Dag, tx: DagTransaction)
    requires CheckVertex(d.graph.vertices, tx) == Ok && !tx.IsGenesis()
    ensures var (l, o) := ApplyEffects(d.ledger, tx);
      && (o == Ok ==> Attach(d, tx) == (d.(graph := Insert(d.graph, tx), ledger := l), Ok))
      && (o != Ok && o != Err(Overflow) ==> Attach(d, tx) == (d, o))
  {}

  /** With room, attach applies the vertex or refuses it and changes nothing. */
  lemma AttachClean(d: Dag, b: nat, unsettled: set<TxHash>, tx: DagTransaction)
    requires Inv(d, b, unsettled) && Offered(tx) && RoomFor(d, 1)
    ensures Attach(d, tx).1 != Err(Overflow)
    ensures Attach(d, tx).1 != Ok ==> Attach(d, tx).0 == d
    ensures CheckVertex(d.graph.vertices, tx) != Ok ==> Attach(d, tx) == (d, CheckVertex(d.graph.vertices, tx))
    ensures CheckVertex(d.graph.vertices, tx) == Ok ==>
      var (l, o) := ApplyEffects(d.ledger, tx);
      && Attach(d, tx) == (if o == Ok then d.(graph := Insert(d.graph, tx), ledger := l) else d, o)
      && tx.fee == FIXED_TRANSACTION_FEE
  {
    if CheckVertex(d.graph.vertices, tx) == Ok {
      InsertExtends(d.graph, tx);
      CountBelow(d, b, unsettled);
      NeverOverflows(d.ledger, d.faucet, tx);
      AttachIsApply(d, tx);
    } else {
      CheckNeverOverflows(d.graph.vertices, tx);
    }
  }

  lemma CheckNeverOverflows(vs: Vertices, tx: DagTransaction)
    ensures CheckVertex(vs, tx) == Ok || !(CheckVertex(vs, tx).error.Overflow? || CheckVertex(vs, tx).error.DoubleSpend?
                                          || CheckVertex(vs, tx).error.InsufficientBalance?)
  {}

  lemma AttachKeeps(d: Dag, b: nat, unsettled: set<TxHash>, tx: DagTransaction)
    requires Inv(d, b, unsettled) && Offered(tx) && RoomFor(d, 1) && Attach(d, tx).1 == Ok
    ensures Inv(Attach(d, tx).0, b, unsettled)
    ensures var skip := d.conflicts.Keys + unsettled;
      AppliedAll(Attach(d, tx).0.graph, skip) == AppliedAll(d.graph, skip) + [tx]
  {
    AttachClean(d, b, unsettled, tx);
    StockedInsert(d, tx);
    GrownLined(d.graph);
    CountBelow(d, b, unsettled);
    SettledApplied(d, b, unsettled, tx, Insert(d.graph, tx));
  }

  lemma SettledApplied(d: Dag, b: nat, unsettled: set<TxHash>, tx: DagTransaction, r: Graph)
    requires Settled(d, b, unsettled) && Lined(d.graph.vertices, d.graph.order) && Extends(d.graph, tx, r)
    requires b <= 1 && d.graph.genesis in d.graph.vertices && d.ledger.txCount + 1 < U64_MAX
    requires tx.fee == FIXED_TRANSACTION_FEE && ApplyEffects(d.ledger, tx).1 == Ok
    ensures Settled(d.(graph := r, ledger := ApplyEffects(d.ledger, tx).0), b, unsettled)
    ensures var skip := d.conflicts.Keys + unsettled; AppliedAll(r, skip) == AppliedAll(d.graph, skip) + [tx]
  {
    var skip := d.conflicts.Keys + unsettled;
    AppliedInsert(d.graph, tx, r, skip, skip);
    BaseKept(d.graph, tx, r, b);
    ExplainedStep(d.ledger, d.faucet, AppliedAll(d.graph, skip), Base(d.graph, b), tx);
    SoundStep(d.ledger, d.faucet, tx);
  }

  /** Storing a vertex without touching the ledger leaves it unsettled. */
  lemma InsertKeeps(d: Dag, b: nat, unsettled: set<TxHash>, tx: DagTransaction)
    requires Inv(d, b, unsettled) && Offered(tx) && InsertGraphOnly(d, tx).1 == Ok
    ensures Inv(InsertGraphOnly(d, tx).0, b, unsettled + {tx.id})
  {
    StockedInsert(d, tx);
    GrownLined(d.graph);
    SettledStored(d, b, unsettled, tx, Insert(d.graph, tx));
  }

  lemma SettledStored(d: Dag, b: nat, unsettled: set<TxHash>, tx: DagTransaction, r: Graph)
    requires Settled(d, b, unsettled) && Lined(d.graph.vertices, d.graph.order) && Extends(d.graph, tx, r)
    requires d.graph.genesis in d.graph.vertices
    ensures Settled(d.(graph := r), b, unsettled + {tx.id})
  {
    var skip := d.conflicts.Keys + unsettled;
    AppliedInsert(d.graph, tx, r, skip, skip + {tx.id});
    BaseKept(d.graph, tx, r, b);
    assert d.conflicts.Keys + (unsettled + {tx.id}) == skip + {tx.id};
    assert AppliedAll(d.graph, skip) + [] == AppliedAll(d.graph, skip);
  }

  // ----------------------------------------------------------------- faucet

  /** A credit that cannot saturate moves one balance and one faucet entry. */
  lemma CreditFields(d: Dag, a: Address, amount: nat)
    requires Sound(d.ledger, d.faucet) && Sum(d.faucet) + amount + HARD_CAP <= U64_MAX
    ensures var d' := CreditAccount(d, a, amount);
      && d' == d.(ledger := d.ledger.(balances := Credit(d.ledger.balances, a, amount)),
                  faucet := Credit(d.faucet, a, amount))
      && Sound(d'.ledger, d'.faucet) && Sum(d'.faucet) == Sum(d.faucet) + amount
  {
    hide Sum;
    CreditSum(d.ledger.balances, a, amount);
    CreditSum(d.faucet, a, amount);
  }

  lemma CreditSum(m: map<Address, nat>, a: Address, amount: nat)
    ensures Sum(Credit(m, a, amount)) == Sum(m) + amount && At(m, a) <= Sum(m)
  {
    hide Sum;
    SumAtLeast(m, a);
    SumUpdate(m, a, At(m, a) + amount);
  }

  lemma ExplainedCredit(l: Ledger, f: map<Address, nat>, h: seq<DagTransaction>, base: map<Address, nat>,
                        a: Address, amount: nat)
    requires Explained(l, f, h, base)
    ensures Explained(l.(balances := Credit(l.balances, a, amount)), Credit(f, a, amount), h, base)
  {
    var m := l.(balances := Credit(l.balances, a, amount));
    forall x ensures At(m.balances, x) == At(Credit(f, a, amount), x) + Net(h, x) {
      assert At(l.balances, x) == At(f, x) + Net(h, x);
    }
  }

  lemma CreditKeeps(d: Dag, b: nat, unsettled: set<TxHash>, a: Address, amount: nat)
    requires Inv(d, b, unsettled) && Sum(d.faucet) + amount + HARD_CAP <= U64_MAX
    ensures Inv(CreditAccount(d, a, amount), b, unsettled)
    ensures Sum(CreditAccount(d, a, amount).faucet) == Sum(d.faucet) + amount
  {
    CreditFields(d, a, amount);
    var h := AppliedAll(d.graph, d.conflicts.Keys + unsettled);
    ExplainedCredit(d.ledger, d.faucet, h, Base(d.graph, b), a, amount);
  }

  // ---------------------------------------------------------------- rebuild

  /** What replaying a prefix has established. */
  ghost predicate Replaying(f: map<Address, nat>, vs: Vertices, order: seq<TxHash>, losers: set<TxHash>,
                            r: Replayed, n: nat)
    requires n <= |order|
  {
    && !r.failed
    && ReplayExplained(f, Applied(vs, order, losers + ToSet(r.extra), n), r.ledger)
    && r.ledger.txCount <= n
    && ToSet(r.extra) <= ToSet(order[..n])
    && forall x :: x in r.extra ==> !Skipped(vs, losers, x)
  }

  ghost predicate ReplayExplained(f: map<Address, nat>, h: seq<DagTransaction>, l: Ledger) {
    Explained(l, f, h, map[]) && InNonceOrder(h, map[]) && Sound(l, f)
  }

  /** What admission left behind: costs that fit and the fixed fee on user vertices. */
  ghost predicate Payable(vs: Vertices, order: seq<TxHash>) {
    forall i :: 0 <= i < |order| ==> PayableAt(vs, order, i)
  }

  ghost predicate PayableAt(vs: Vertices, order: seq<TxHash>, i: nat)
    requires i < |order|
  {
    order[i] in vs && vs[order[i]].Cost() <= U64_MAX && (i > 0 ==> vs[order[i]].fee == FIXED_TRANSACTION_FEE)
  }

  lemma StockedPayable(d: Dag)
    requires Stocked(d)
    ensures Payable(d.graph.vertices, d.graph.order) && Lined(d.graph.vertices, d.graph.order)
  {
    GrownLined(d.graph);
    forall i | 0 <= i < |d.graph.order| ensures PayableAt(d.graph.vertices, d.graph.order, i) {
      StoredFee(d.graph, i);
      assert LinedAt(d.graph.vertices, d.graph.order, i);
    }
  }

  /** With room a replay never fails, and its ledger is explained by what it applied. */
  lemma {:induction false} ReplayLaw(f: map<Address, nat>, vs: Vertices, order: seq<TxHash>,
                                     losers: set<TxHash>, n: nat)
    requires Lined(vs, order) && Payable(vs, order) && Room(f, |order|) && n <= |order|
    ensures Replaying(f, vs, order, losers, Replay(vs, order, losers, Baseline(f), n), n)
  {
    if n == 0 {
      ReplayStart(f);
    } else {
      ReplayLaw(f, vs, order, losers, n - 1);
      ReplayStep(f, vs, order, losers, Replay(vs, order, losers, Baseline(f), n - 1), n - 1);
    }
  }

  lemma ReplayStart(f: map<Address, nat>)
    ensures ReplayExplained(f, [], Baseline(f))
  {}

  lemma ReplayStep(f: map<Address, nat>, vs: Vertices, order: seq<TxHash>, losers: set<TxHash>, r: Replayed, n: nat)
    requires n < |order| && Replaying(f, vs, order, losers, r, n) && Room(f, |order|) && Lined(vs, order)
    requires PayableAt(vs, order, n)
    ensures Replaying(f, vs, order, losers, ReplayOne(vs, losers, r, order[n]), n + 1)
  {
    var id := order[n];
    assert LinedAt(vs, order, n);
    ReplayNext(order, r, n);
    if Skipped(vs, losers, id) {
      assert Skipped(vs, losers + ToSet(r.extra), id);
    } else {
      NeverOverflows(r.ledger, f, vs[id]);
      var (l, o) := ApplyEffects(r.ledger, vs[id]);
      if o == Ok {
        ExplainedStep(r.ledger, f, Applied(vs, order, losers + ToSet(r.extra), n), map[], vs[id]);
        SoundStep(r.ledger, f, vs[id]);
      } else {
        ApplyRefuses(r.ledger, vs[id]);
        ReplayLoses(vs, order, losers, r, n);
      }
    }
  }

  lemma ReplayNext(order: seq<TxHash>, r: Replayed, n: nat)
    requires n < |order| && NoDup(order) && ToSet(r.extra) <= ToSet(order[..n])
    ensures order[n] !in r.extra && ToSet(order[..n + 1]) == ToSet(order[..n]) + {order[n]}
  {
    assert order[..n + 1] == order[..n] + [order[n]];
    assert order[n] !in ToSet(r.extra);
  }

  /** Without overflow the only refusals are the ones a replay turns into extra losers. */
  lemma ApplyRefuses(l: Ledger, tx: DagTransaction)
    requires ApplyEffects(l, tx).1 != Ok && ApplyEffects(l, tx).1 != Err(Overflow)
    ensures ApplyEffects(l, tx).1.error.DoubleSpend? || ApplyEffects(l, tx).1.error.InsufficientBalance?
  {}

  lemma ReplayLoses(vs: Vertices, order: seq<TxHash>, losers: set<TxHash>, r: Replayed, n: nat)
    requires n < |order| && Lined(vs, order)
    ensures Applied(vs, order, losers + ToSet(r.extra + [order[n]]), n + 1)
          == Applied(vs, order, losers + ToSet(r.extra), n)
    ensures ToSet(r.extra + [order[n]]) == ToSet(r.extra) + {order[n]}
  {
    var extra := r.extra + [order[n]];
    assert forall x :: x in extra <==> x in r.extra || x == order[n];
    forall i | 0 <= i < n
      ensures order[i] in vs && (order[i] in losers + ToSet(r.extra) <==> order[i] in losers + ToSet(extra))
    {
      assert LinedAt(vs, order, i);
    }
    AppliedSame(vs, vs, order, order, losers + ToSet(r.extra), losers + ToSet(extra), n);
    assert order[n] in extra;
  }

  /** Admission already checked the fee of every stored user vertex. */
  lemma {:induction false} AdmittedFee(txs: seq<DagTransaction>, i: nat)
    requires Admitted(txs) && i < |txs|
    ensures txs[i].fee == if txs[i].IsGenesis() then 0 else FIXED_TRANSACTION_FEE
    ensures txs[i].keyMatchesSender && txs[i].signatureValid && txs[i].VerifyRelayProofs() && txs[i].id != NULL_PARENT
    decreases |txs|
  {
    if i < |txs| - 1 { AdmittedFee(txs[..|txs| - 1], i); }
  }

  lemma StoredFee(g: Graph, i: nat)
    requires Grown(g) && i < |g.order|
    ensures var tx := g.vertices[g.order[i]];
      && tx.fee == (if tx.IsGenesis() then 0 else FIXED_TRANSACTION_FEE)
      && tx.keyMatchesSender && tx.signatureValid && tx.VerifyRelayProofs() && tx.id != NULL_PARENT
  {
    AdmittedFee(Listed(g), i);
  }

  /** From any well-stocked graph a rebuild succeeds and settles every vertex. */
  lemma RebuildSettles(d: Dag)
    requires Stocked(d) && RoomFor(d, 0)
    ensures Rebuild(d).1 == Ok && Inv(Rebuild(d).0, 0, {})
    ensures Rebuild(d).0.graph == d.graph && Rebuild(d).0.faucet == d.faucet
  {
    var vs, order := d.graph.vertices, d.graph.order;
    var losers, r := Losers(vs, d.graph.weights), ReplayAll(d);
    StockedPayable(d);
    ReplayLaw(d.faucet, vs, order, losers, |order|);
    GrownLined(d.graph);
    assert order[..|order|] == order;
    assert LinedAt(vs, order, 0);
    RebuiltSettled(d, losers, r);
  }

  lemma RebuiltSettled(d: Dag, losers: set<TxHash>, r: Replayed)
    requires losers == Losers(d.graph.vertices, d.graph.weights) && !r.failed
    requires ReplayExplained(d.faucet,
        Applied(d.graph.vertices, d.graph.order, losers + ToSet(r.extra), |d.graph.order|), r.ledger)
    requires ToSet(r.extra) <= d.graph.vertices.Keys && d.graph.genesis in d.graph.vertices
    requires d.graph.vertices[d.graph.genesis].IsGenesis()
    requires forall x :: x in r.extra ==> !Skipped(d.graph.vertices, losers, x)
    ensures Settled(d.(ledger := r.ledger,
                       conflicts := ConflictMap(d.graph.vertices, d.graph.weights, ToSet(r.extra))), 0, {})
  {
    var keys := ConflictMap(d.graph.vertices, d.graph.weights, ToSet(r.extra)).Keys;
    assert keys + {} == losers + ToSet(r.extra);
    assert d.graph.genesis !in r.extra;
    assert d.graph.genesis in ToSet(r.extra) ==> d.graph.genesis in r.extra;
    forall s ensures At(Base(d.graph, 0), s) == At<Address>(map[], s) {}
  }
}
