/** `DagStore::load` (src/persist.rs): genesis, faucet credits, WAL replay, one rebuild. */
module Persistence {
  import opened Basics
  import opened Economics
  import opened Transactions
  import opened Ledgers
  import opened Graphs
  import opened Building
  import opened History
  import opened Dags
  import opened Settlement
  import opened Steps
  import opened Admission
  import opened Runs
  import opened Safety
  import opened Refinement
  import opened Engine

  /** The snapshot's faucet map, credited in key order, zero entries skipped. */
  function CreditAll(d: Dag, f: map<Address, nat>, keys: seq<Address>): Dag
    requires forall i :: 0 <= i < |keys| ==> keys[i] in f
  {
    if keys == [] then d
    else
      var last := keys[|keys| - 1];
      CreditAccount(CreditAll(d, f, keys[..|keys| - 1]), last, f[last])
  }

  function Keys(f: map<Address, nat>): (r: seq<Address>)
    ensures Increasing(r) && ToSet(r) == f.Keys && forall i :: 0 <= i < |r| ==> r[i] in f
  {
    var r := Sorted(f.Keys);
    assert forall i :: 0 <= i < |r| ==> r[i] in ToSet(r);
    r
  }

  datatype Load = Loaded(dag: Dag) | LoadFailed(error: DagError)

  /** One WAL record: known ids are skipped, orphans are dropped, any other refusal stops. */
  ghost function Reingest(l: Load, tx: DagTransaction): Load {
    if l.LoadFailed? || tx.id in l.dag.graph.vertices then l
    else
      var (m, r) := Accept(l.dag, tx);
      if r.Stored? || r.error.UnknownParent? then Loaded(m) else LoadFailed(r.error)
  }

  ghost function ReingestAll(l: Load, records: seq<DagTransaction>): Load {
    if records == [] then l else Reingest(ReingestAll(l, records[..|records| - 1]), records[|records| - 1])
  }

  ghost function LoadFrom(genesis: DagTransaction, f: map<Address, nat>, records: seq<DagTransaction>): Load {
    var l := ReingestAll(Loaded(CreditAll(WithGenesis(genesis), f, Keys(f))), records);
    if l.LoadFailed? then l
    else
      var (m, o) := Rebuild(l.dag);
      if o == Ok then Loaded(m) else LoadFailed(o.error)
  }

  // ------------------------------------------------------------- the method

  method LoadStore(genesis: DagTransaction, f: map<Address, nat>, records: seq<DagTransaction>)
      returns (dag: KronDag, o: Outcome)
    requires ProtocolGenesis(genesis) && forall i :: 0 <= i < |records| ==> records[i].id != NULL_PARENT
    ensures fresh(dag) && LoadFrom(genesis, f, records) == if o == Ok then Loaded(dag.View()) else LoadFailed(o.error)
  {
    hide Grown, Attach, Accept, Rebuild, Sorted, Reingest;
    dag := new KronDag.New();
    var attached := dag.AttachAndVerifyTx(genesis);
    var keys := Keys(f);
    for i := 0 to |keys|
      invariant dag.Valid() && fresh(dag) && dag.View() == CreditAll(WithGenesis(genesis), f, keys[..i])
    {
      assert keys[..i + 1][..i] == keys[..i];
      dag.CreditAccount(keys[i], f[keys[i]]);
    }
    assert keys[..|keys|] == keys;
    ghost var start := Loaded(dag.View());
    for i := 0 to |records|
      invariant dag.Valid() && fresh(dag) && ReingestAll(start, records[..i]) == Loaded(dag.View())
    {
      assert records[..i + 1][..i] == records[..i];
      ReingestCases(dag.View(), records[i]);
      if records[i].id in dag.vertices {
        continue;
      }
      var r := dag.AcceptWireVertex(records[i]);
      if r.Rejected? && !r.error.UnknownParent? {
        ReingestStops(start, records, i + 1);
        return dag, Err(r.error);
      }
    }
    assert records[..|records|] == records;
    o := dag.ResolveConflictsAndRebuildLedger();
  }

  lemma ReingestCases(d: Dag, tx: DagTransaction)
    ensures tx.id in d.graph.vertices ==> Reingest(Loaded(d), tx) == Loaded(d)
    ensures tx.id !in d.graph.vertices ==>
      var (m, r) := Accept(d, tx);
      Reingest(Loaded(d), tx) == if r.Stored? || r.error.UnknownParent? then Loaded(m) else LoadFailed(r.error)
  {}

  lemma {:induction false} ReingestStops(l: Load, records: seq<DagTransaction>, n: nat)
    requires n <= |records| && ReingestAll(l, records[..n]).LoadFailed?
    ensures ReingestAll(l, records) == ReingestAll(l, records[..n])
    decreases |records| - n
  {
    hide Accept;
    if n == |records| {
      assert records[..n] == records;
    } else {
      assert records[..n + 1][..n] == records[..n];
      ReingestStops(l, records, n + 1);
    }
  }

  // ---------------------------------------------------------------- credits

  /** The faucet never holds an entry for an account it did not credit. */
  ghost predicate Positive(f: map<Address, nat>) {
    forall a {:trigger f[a]} :: a in f ==> f[a] > 0
  }

  ghost function Restrict(f: map<Address, nat>, keys: set<Address>): map<Address, nat> {
    map a | a in f && a in keys :: f[a]
  }

  /** Crediting a faucet map to a fresh node hands out exactly that map. */
  lemma {:induction false} CreditsExact(genesis: DagTransaction, f: map<Address, nat>, keys: seq<Address>)
    requires ProtocolGenesis(genesis) && Positive(f) && NoDup(keys) && Sum(f) + HARD_CAP <= U64_MAX
    requires forall i :: 0 <= i < |keys| ==> keys[i] in f
    ensures var d := CreditAll(WithGenesis(genesis), f, keys);
      && Inv(d, 1, {}) && d.graph == Insert(EMPTY, genesis) && d.faucet == Restrict(f, ToSet(keys))
  {
    hide Inv, WithGenesis, CreditAccount, Insert, ProtocolGenesis;
    if keys == [] {
      GenesisInv(genesis);
      NoCredits(genesis, f);
    } else {
      var n := |keys| - 1;
      CreditsExact(genesis, f, keys[..n]);
      CreditNext(CreditAll(WithGenesis(genesis), f, keys[..n]), f, keys, n);
    }
  }

  lemma NoCredits(genesis: DagTransaction, f: map<Address, nat>)
    requires ProtocolGenesis(genesis)
    ensures WithGenesis(genesis).graph == Insert(EMPTY, genesis)
    ensures WithGenesis(genesis).faucet == Restrict(f, ToSet([]))
  {
    hide Insert;
    GenesisAttaches(genesis);
  }

  lemma CreditNext(d: Dag, f: map<Address, nat>, keys: seq<Address>, n: nat)
    requires n < |keys| && NoDup(keys) && keys[n] in f && Positive(f) && Sum(f) + HARD_CAP <= U64_MAX
    requires Inv(d, 1, {}) && d.faucet == Restrict(f, ToSet(keys[..n]))
    ensures var m := CreditAccount(d, keys[n], f[keys[n]]);
      && Inv(m, 1, {}) && m.graph == d.graph && m.faucet == Restrict(f, ToSet(keys[..n + 1]))
  {
    hide Inv, Positive, Restrict, CreditAccount;
    RestrictMore(f, keys, n);
    CreditKeeps(d, 1, {}, keys[n], f[keys[n]]);
    CreditFaucet(d, keys[n], f[keys[n]]);
  }

  lemma RestrictMore(f: map<Address, nat>, keys: seq<Address>, n: nat)
    requires n < |keys| && NoDup(keys) && keys[n] in f && Positive(f)
    ensures var few, a := Restrict(f, ToSet(keys[..n])), keys[n];
      && a !in few && f[a] > 0 && Restrict(f, ToSet(keys[..n + 1])) == few[a := f[a]] && Sum(few) + f[a] <= Sum(f)
  {
    var few, a := Restrict(f, ToSet(keys[..n])), keys[n];
    assert keys[..n + 1] == keys[..n] + [a] && a !in keys[..n];
    var more := Restrict(f, ToSet(keys[..n + 1]));
    assert more == few[a := f[a]];
    SumUpdate(few, a, f[a]);
    SumBelow(more, f);
  }

  lemma CreditFaucet(d: Dag, a: Address, amount: nat)
    requires 0 < amount && amount + HARD_CAP <= U64_MAX && a !in d.faucet
    ensures CreditAccount(d, a, amount).graph == d.graph && CreditAccount(d, a, amount).faucet == d.faucet[a := amount]
  {}

  // ---------------------------------------------------------------- records

  /** Replaying the stored vertices of a graph in attach order rebuilds that graph. */
  lemma {:induction false} RecordsRebuild(d: Dag, b: nat, u: set<TxHash>, txs: seq<DagTransaction>, k: nat)
      returns (b': nat, u': set<TxHash>)
    requires 1 <= k <= |txs| && Admitted(txs) && Room(d.faucet, |txs|)
    requires forall i :: 0 <= i < |txs| ==> Offered(txs[i])
    requires Inv(d, b, u) && d.graph == Build(txs[..1])
    ensures var l := ReingestAll(Loaded(d), txs[1..k]);
      && l.Loaded? && Inv(l.dag, b', u') && l.dag.faucet == d.faucet && l.dag.graph == Build(txs[..k])
  {
    hide Inv, Build, Offered, Accept, Room;
    b', u' := b, u;
    if k == 1 {
      assert txs[1..1] == [];
    } else {
      b', u' := RecordsRebuild(d, b, u, txs, k - 1);
      assert txs[1..k] == txs[1..k - 1] + [txs[k - 1]];
      assert txs[1..k][..k - 2] == txs[1..k - 1];
      b', u' := RecordNext(ReingestAll(Loaded(d), txs[1..k - 1]).dag, b', u', txs, k - 1);
    }
  }

  lemma {:induction false} AdmittedPrefix(txs: seq<DagTransaction>, k: nat)
    requires Admitted(txs) && k <= |txs|
    ensures Admitted(txs[..k])
    decreases |txs|
  {
    if k < |txs| {
      assert txs[..|txs| - 1][..k] == txs[..k];
      AdmittedPrefix(txs[..|txs| - 1], k);
    } else {
      assert txs[..k] == txs;
    }
  }

  /** Accepting the next vertex of an admitted list stores it. */
  lemma AcceptNext(m: Dag, b: nat, u: set<TxHash>, txs: seq<DagTransaction>, k: nat) returns (b': nat, u': set<TxHash>)
    requires 1 <= k < |txs| && Admitted(txs) && Room(m.faucet, |txs|) && Offered(txs[k])
    requires Inv(m, b, u) && m.graph == Build(txs[..k])
    ensures Allowed(m, AcceptStep(txs[k])) && txs[k].id !in m.graph.vertices
    ensures var (n, r) := Accept(m, txs[k]);
      r == Stored(true) && Inv(n, b', u') && n.faucet == m.faucet && n.graph == Build(txs[..k + 1])
  {
    hide Build, Accept, Grown, Settled, AllOffered, CheckVertex, Insert;
    AdmittedPrefix(txs, k + 1);
    assert txs[..k + 1] == txs[..k] + [txs[k]];
    BuildStep(txs[..k], txs[k]);
    CheckedIsNew(m.graph.vertices, txs[k]);
    PrefixLength(txs, k);
    b', u' := AcceptKeeps(m, b, u, txs[k]);
  }

  lemma RecordNext(m: Dag, b: nat, u: set<TxHash>, txs: seq<DagTransaction>, k: nat) returns (b': nat, u': set<TxHash>)
    requires 1 <= k < |txs| && Admitted(txs) && Room(m.faucet, |txs|) && Offered(txs[k])
    requires Inv(m, b, u) && m.graph == Build(txs[..k])
    ensures var l := Reingest(Loaded(m), txs[k]);
      && l.Loaded? && Inv(l.dag, b', u') && l.dag.faucet == m.faucet && l.dag.graph == Build(txs[..k + 1])
  {
    hide Build, Accept, Inv, Allowed;
    b', u' := AcceptNext(m, b, u, txs, k);
  }

  lemma CheckedIsNew(vs: Vertices, tx: DagTransaction)
    requires CheckVertex(vs, tx) == Ok
    ensures tx.id !in vs
  {}

  lemma PrefixLength(txs: seq<DagTransaction>, k: nat)
    requires 1 <= k <= |txs| && Admitted(txs)
    ensures |Build(txs[..k]).order| == k
  {
    AdmittedPrefix(txs, k);
    BuildLists(txs[..k]);
  }

  /** A new id under parents of which one is not stored. */
  ghost predicate Orphan(vs: Vertices, tx: DagTransaction) {
    tx.id !in vs && (tx.parent1 != 0 || tx.parent2 != 0) && !(Present(vs, tx.parent1) && Present(vs, tx.parent2))
  }

  /** What admission asks of a new vertex. */
  ghost predicate Admissible(vs: Vertices, tx: DagTransaction) {
    Placed(vs, tx) && FeeRight(tx) && tx.keyMatchesSender && tx.signatureValid && ProofsHold(tx)
  }

  /** Any record, not only one that this node wrote: a known id and an orphan change nothing, a
      sound vertex is stored, and anything else stops the boot. */
  lemma ReingestExact(d: Dag, b: nat, u: set<TxHash>, tx: DagTransaction)
    requires Inv(d, b, u) && Offered(tx) && RoomFor(d, 1)
    ensures var vs, l := d.graph.vertices, Reingest(Loaded(d), tx);
      && (l.Loaded? <==> tx.id in vs || Orphan(vs, tx) || Admissible(vs, tx))
      && (l.Loaded? ==> l.dag.faucet == d.faucet)
      && (Admissible(vs, tx) ==> l.Loaded? && l.dag.graph == Insert(d.graph, tx))
      && (tx.id in vs || Orphan(vs, tx) ==> l == Loaded(d))
  {
    hide Inv, Offered, RoomFor;
    var vs := d.graph.vertices;
    OrphanIs(vs, tx);
    ReingestCases(d, tx);
    hide Reingest, Admissible, Orphan;
    var b', u' := AcceptKeeps(d, b, u, tx);
    hide Accept, CheckVertex, Insert;
  }

  lemma OrphanIs(vs: Vertices, tx: DagTransaction)
    ensures CheckVertex(vs, tx) == Ok <==> Admissible(vs, tx)
    ensures Admissible(vs, tx) ==> tx.id !in vs && !Orphan(vs, tx)
    ensures Orphan(vs, tx) ==> tx.id !in vs && CheckVertex(vs, tx) != Ok && CheckVertex(vs, tx).error.UnknownParent?
    ensures tx.id !in vs && CheckVertex(vs, tx) != Ok && CheckVertex(vs, tx).error.UnknownParent? ==> Orphan(vs, tx)
  {
    AdmissionExact(vs, tx);
    hide ProofsHold;
  }

  // ---------------------------------------------------------------- restart

  /** The state whose graph holds only the first k vertices. */
  ghost function Cut(d: Dag, k: nat): Dag
    requires Grown(d.graph) && k <= |d.graph.order|
  {
    d.(graph := Build(Listed(d.graph)[..k]))
  }

  /** A node that can be restarted: protocol genesis, no zero faucet entry, room. */
  ghost predicate Restartable(d: Dag, genesis: DagTransaction) {
    && ProtocolGenesis(genesis) && Stocked(d) && Positive(d.faucet) && RoomFor(d, 0)
    && Listed(d.graph)[0] == genesis
  }

  /** Rebuilding only looks at the graph and the faucet. */
  lemma RebuildSame(d: Dag, e: Dag)
    requires d.graph == e.graph && d.faucet == e.faucet && Rebuild(d).1 == Ok
    ensures Rebuild(e) == Rebuild(d)
  {
    hide Replay, Losers;
  }

  /** A log cut after any whole record restores exactly the vertices it holds, and on them
      the ledger and conflicts of a rebuild. */
  lemma RestartFromCut(d: Dag, genesis: DagTransaction, k: nat)
    requires Restartable(d, genesis) && 1 <= k <= |d.graph.order|
    ensures LoadFrom(genesis, d.faucet, Listed(d.graph)[1..k]) == Loaded(Rebuild(Cut(d, k)).0)
    ensures Rebuild(Cut(d, k)).1 == Ok
    ensures Grown(Cut(d, k).graph) && Listed(Cut(d, k).graph) == Listed(d.graph)[..k]
  {
    hide Restartable, Build, Grown, Rebuild, Listed, ReingestAll, LoadFrom, CreditAll, WithGenesis;
    GrownLists(d, genesis);
    OrderInside(d.graph);
    var txs := Listed(d.graph);
    var m, b, u := ReplayedState(d, genesis, k);
    AdmittedPrefix(txs, k);
    BuildGrown(txs[..k]);
    PrefixLength(txs, k);
    CutSettles(m, b, u, |txs|);
    RebuildSame(m, Cut(d, k));
    LoadEnds(genesis, d.faucet, txs[1..k], m);
  }

  lemma OrderInside(g: Graph)
    requires Grown(g)
    ensures forall i :: 0 <= i < |g.order| ==> g.order[i] in g.vertices
  {}

  lemma LoadEnds(genesis: DagTransaction, f: map<Address, nat>, records: seq<DagTransaction>, m: Dag)
    requires ReingestAll(Loaded(CreditAll(WithGenesis(genesis), f, Keys(f))), records) == Loaded(m)
    requires Rebuild(m).1 == Ok
    ensures LoadFrom(genesis, f, records) == Loaded(Rebuild(m).0)
  {
    hide Rebuild, ReingestAll, CreditAll, WithGenesis, Keys;
  }

  /** What a restartable node lists. */
  lemma GrownLists(d: Dag, genesis: DagTransaction)
    requires Restartable(d, genesis)
    ensures var txs := Listed(d.graph);
      && Grown(d.graph) && |txs| == |d.graph.order| && Admitted(txs) && Build(txs) == d.graph && txs[0] == genesis
      && Room(d.faucet, |txs|) && forall i :: 0 <= i < |txs| ==> Offered(txs[i])
  {
    ListedOffered(d);
  }

  /** The state after the first k - 1 records. */
  lemma ReplayedState(d: Dag, genesis: DagTransaction, k: nat) returns (m: Dag, b: nat, u: set<TxHash>)
    requires Restartable(d, genesis) && 1 <= k <= |d.graph.order|
    requires forall i :: 0 <= i < |d.graph.order| ==> d.graph.order[i] in d.graph.vertices
    ensures ReingestAll(Loaded(CreditAll(WithGenesis(genesis), d.faucet, Keys(d.faucet))), Listed(d.graph)[1..k])
          == Loaded(m)
    ensures Inv(m, b, u) && m.faucet == d.faucet && m.graph == Build(Listed(d.graph)[..k])
  {
    hide Restartable, Build, Grown, Listed, ReingestAll, CreditAll, WithGenesis, Insert, Inv, Keys;
    var txs, keys := Listed(d.graph), Keys(d.faucet);
    GrownLists(d, genesis);
    AllCredits(d, genesis, keys);
    FirstBuilt(txs, genesis);
    var start := CreditAll(WithGenesis(genesis), d.faucet, keys);
    b, u := RecordsRebuild(start, 1, {}, txs, k);
    m := ReingestAll(Loaded(start), txs[1..k]).dag;
  }

  lemma CutSettles(m: Dag, b: nat, u: set<TxHash>, n: nat)
    requires Inv(m, b, u) && Room(m.faucet, n) && |m.graph.order| <= n
    ensures Rebuild(m).1 == Ok
  {
    RebuildSettles(m);
  }

  lemma ListedOffered(d: Dag)
    requires Stocked(d)
    ensures forall i :: 0 <= i < |Listed(d.graph)| ==> Offered(Listed(d.graph)[i])
  {
    forall i | 0 <= i < |Listed(d.graph)| ensures Offered(Listed(d.graph)[i]) { StoredFee(d.graph, i); }
  }

  lemma FirstBuilt(txs: seq<DagTransaction>, genesis: DagTransaction)
    requires txs != [] && txs[0] == genesis
    ensures Build(txs[..1]) == Insert(EMPTY, genesis)
  {
    hide Insert;
    assert txs[..1] == [genesis];
    BuildStep([], genesis);
    assert [] + [genesis] == [genesis];
  }

  lemma AllCredits(d: Dag, genesis: DagTransaction, keys: seq<Address>)
    requires Restartable(d, genesis) && keys == Keys(d.faucet)
    ensures var m := CreditAll(WithGenesis(genesis), d.faucet, keys);
      Inv(m, 1, {}) && m.graph == Insert(EMPTY, genesis) && m.faucet == d.faucet
  {
    hide Stocked, Inv, ProtocolGenesis, WithGenesis, Insert, CreditAll;
    CreditsExact(genesis, d.faucet, keys);
    assert Restrict(d.faucet, d.faucet.Keys) == d.faucet;
  }

  /** A restart from the full log and the live faucet restores the live graph in every field,
      and the ledger and conflicts that a rebuild gives the live node. */
  lemma RestartRestores(d: Dag, genesis: DagTransaction)
    requires Restartable(d, genesis)
    ensures LoadFrom(genesis, d.faucet, Listed(d.graph)[1..]) == Loaded(Rebuild(d).0) && Rebuild(d).0.graph == d.graph
  {
    hide Restartable, Build, Grown, Rebuild, Listed, LoadFrom;
    GrownLists(d, genesis);
    var txs, n := Listed(d.graph), |d.graph.order|;
    RestartFromCut(d, genesis, n);
    assert txs[..n] == txs && txs[1..n] == txs[1..];
    RebuildOnly(d);
  }

  // ---------------------------------------------------------- live runs

  /** The faucet only ever gains positive entries. */
  lemma ExecPositive(d: Dag, s: Step)
    requires Positive(d.faucet)
    ensures Positive(Exec(d, s).faucet)
  {
    hide Attach, Rebuild, MergeLoop;
    match s
    case CreditStep(a, amount) =>
    case AttachStep(tx) => AttachFaucet(d, tx);
    case AcceptStep(tx) => AttachFaucet(d, tx); RebuildOnly(InsertGraphOnly(Attach(d, tx).0, tx).0);
    case MergeStep(batch) => MergeFaucet(d, batch, |batch|); RebuildOnly(MergeLoop(d, batch, |batch|).0);
    case ResolveStep => RebuildOnly(d);
  }

  lemma AttachFaucet(d: Dag, tx: DagTransaction)
    ensures Attach(d, tx).0.faucet == d.faucet
  {
    hide Insert, Mint, CheckVertex, Transfer;
  }

  lemma {:induction false} MergeFaucet(d: Dag, batch: seq<DagTransaction>, n: nat)
    requires n <= |batch|
    ensures MergeLoop(d, batch, n).0.faucet == d.faucet
  {
    hide Insert, CheckVertex;
    if n > 0 { MergeFaucet(d, batch, n - 1); }
  }

  lemma {:induction false} RunPositive(d: Dag, steps: seq<Step>)
    requires Positive(d.faucet)
    ensures Positive(Run(d, steps).faucet)
  {
    hide Exec, Positive;
    if steps != [] {
      RunPositive(d, steps[..|steps| - 1]);
      ExecPositive(Run(d, steps[..|steps| - 1]), steps[|steps| - 1]);
    }
  }

  /** Every node an allowed run reaches can be restarted. */
  lemma LiveRestartable(genesis: DagTransaction, steps: seq<Step>)
    requires ProtocolGenesis(genesis) && AllowedRun(WithGenesis(genesis), steps)
    requires RoomFor(Run(WithGenesis(genesis), steps), 0)
    ensures Restartable(Run(WithGenesis(genesis), steps), genesis)
  {
    hide Run, AllowedRun, WithGenesis, Settled, Positive, Grown, AllOffered, RoomFor;
    GenesisInv(genesis);
    StartsWith(genesis);
    RunGrows(WithGenesis(genesis), 1, {}, steps);
    var b, u := RunKeeps(WithGenesis(genesis), 1, {}, steps);
    RunPositive(WithGenesis(genesis), steps);
    FirstListed(WithGenesis(genesis).graph, Run(WithGenesis(genesis), steps).graph, genesis);
  }

  lemma FirstListed(g: Graph, h: Graph, genesis: DagTransaction)
    requires Grown(g) && Grown(h) && Listed(g) == [genesis] && h.genesis == g.genesis == genesis.id
    requires Kept(g.vertices, h.vertices)
    ensures Listed(h)[0] == genesis
  {
    GrownShaped(g);
    GrownShaped(h);
    assert Listed(g)[0] == g.vertices[g.order[0]];
  }

  lemma StartsWith(genesis: DagTransaction)
    requires ProtocolGenesis(genesis)
    ensures Positive(WithGenesis(genesis).faucet) && WithGenesis(genesis).graph.genesis == genesis.id
    ensures Grown(WithGenesis(genesis).graph) && Listed(WithGenesis(genesis).graph) == [genesis]
  {
    hide Insert, Grown;
    GenesisAttaches(genesis);
    GenesisGrown(genesis);
    GenesisFields(genesis);
  }

  /** Restarting a node that only credited and attached restores its graph; it finds no
      conflict, and restores the ledger, each if and only if no stored user vertex spends from
      the genesis key. */
  lemma RestartOfLocalRun(genesis: DagTransaction, steps: seq<Step>)
    requires ProtocolGenesis(genesis) && AllowedRun(WithGenesis(genesis), steps)
    requires forall i :: 0 <= i < |steps| ==> LocalStep(steps[i])
    requires Restartable(Run(WithGenesis(genesis), steps), genesis)
    ensures var d := Run(WithGenesis(genesis), steps);
      var l := LoadFrom(genesis, d.faucet, Listed(d.graph)[1..]);
      && l.Loaded? && l.dag.graph == d.graph && l.dag.faucet == d.faucet
      && (l.dag.conflicts == map[] <==> KeyUnused(d, genesis.sender))
      && (SameLedger(d.ledger, l.dag.ledger, genesis.sender) <==> KeyUnused(d, genesis.sender))
  {
    hide Run, AllowedRun, WithGenesis, Rebuild, LoadFrom, ProtocolGenesis, Stocked, Positive;
    var d := Run(WithGenesis(genesis), steps);
    RestartRestores(d, genesis);
    RebuildOnly(d);
    BatchRefinesIncremental(genesis, steps);
  }

  // ------------------------------------------------------- older snapshots

  /** No account's faucet entry ever shrinks. */
  ghost predicate NoLess(f: map<Address, nat>, g: map<Address, nat>) {
    forall a :: At(f, a) <= At(g, a)
  }

  lemma ExecNoLess(d: Dag, b: nat, u: set<TxHash>, s: Step)
    requires Inv(d, b, u) && Allowed(d, s)
    ensures NoLess(d.faucet, Exec(d, s).faucet)
  {
    hide Attach, Rebuild, MergeLoop, Inv, Accept;
    match s
    case CreditStep(a, amount) => CreditNoLess(d, b, u, a, amount);
    case AttachStep(tx) => AttachFaucet(d, tx);
    case AcceptStep(tx) => var b', u' := AcceptKeeps(d, b, u, tx);
    case MergeStep(batch) =>
      MergeFaucet(d, batch, |batch|);
      RebuildOnly(MergeLoop(d, batch, |batch|).0);
    case ResolveStep => RebuildOnly(d);
  }

  lemma CreditNoLess(d: Dag, b: nat, u: set<TxHash>, a: Address, amount: nat)
    requires Inv(d, b, u) && Sum(d.faucet) + amount + HARD_CAP <= U64_MAX
    ensures NoLess(d.faucet, CreditAccount(d, a, amount).faucet)
  {
    hide Grown, AllOffered, Explained, InNonceOrder, AppliedAll;
    CreditFields(d, a, amount);
  }

  lemma {:induction false} RunNoLess(d: Dag, b: nat, u: set<TxHash>, steps: seq<Step>)
    requires Inv(d, b, u) && AllowedRun(d, steps)
    ensures NoLess(d.faucet, Run(d, steps).faucet)
  {
    hide Exec, Inv, Allowed;
    if steps != [] {
      var prefix := steps[..|steps| - 1];
      RunNoLess(d, b, u, prefix);
      var b', u' := RunKeeps(d, b, u, prefix);
      ExecNoLess(Run(d, prefix), b', u', steps[|steps| - 1]);
    }
  }

  /** A node can be restarted with a faucet it had earlier, or with none: what a snapshot written
      then, or missing, leaves it with. */
  lemma EarlierFaucet(genesis: DagTransaction, steps: seq<Step>, later: seq<Step>)
    requires ProtocolGenesis(genesis) && AllowedRun(WithGenesis(genesis), steps)
    requires AllowedRun(Run(WithGenesis(genesis), steps), later)
    requires Restartable(Run(Run(WithGenesis(genesis), steps), later), genesis)
    ensures var e, d := Run(WithGenesis(genesis), steps), Run(Run(WithGenesis(genesis), steps), later);
      Restartable(d.(faucet := e.faucet), genesis) && Restartable(d.(faucet := map[]), genesis)
  {
    hide Run, AllowedRun, WithGenesis, ProtocolGenesis, Positive, Stocked, Inv;
    var e := Run(WithGenesis(genesis), steps);
    GenesisInv(genesis);
    StartsWith(genesis);
    var b, u := RunKeeps(WithGenesis(genesis), 1, {}, steps);
    RunPositive(WithGenesis(genesis), steps);
    RunNoLess(e, b, u, later);
    LessRestartable(Run(e, later), e.faucet, genesis);
    assert Positive(map[]) by { NonePositive(); }
    LessRestartable(Run(e, later), map[], genesis);
  }

  lemma NonePositive()
    ensures Positive(map[])
  {}

  lemma LessRestartable(d: Dag, f: map<Address, nat>, genesis: DagTransaction)
    requires Restartable(d, genesis) && Positive(f) && NoLess(f, d.faucet)
    ensures Restartable(d.(faucet := f), genesis)
  {
    hide Grown, AllOffered, ProtocolGenesis, Positive;
    SumBelow(f, d.faucet);
  }

  /** Restarting a node that only credited and attached from a snapshot with any faucet restores
      its graph, and its ledger if and only if that faucet is the live one and no stored user
      vertex spends from the genesis key. */
  lemma FaucetDecides(genesis: DagTransaction, steps: seq<Step>, f: map<Address, nat>)
    requires ProtocolGenesis(genesis) && AllowedRun(WithGenesis(genesis), steps)
    requires forall i :: 0 <= i < |steps| ==> LocalStep(steps[i])
    requires Restartable(Run(WithGenesis(genesis), steps), genesis)
    requires Restartable(Run(WithGenesis(genesis), steps).(faucet := f), genesis)
    ensures var d := Run(WithGenesis(genesis), steps);
      var l := LoadFrom(genesis, f, Listed(d.graph)[1..]);
      && l.Loaded? && l.dag.graph == d.graph && l.dag.faucet == f
      && (SameLedger(d.ledger, l.dag.ledger, genesis.sender) <==> f == d.faucet && KeyUnused(d, genesis.sender))
  {
    hide Run, AllowedRun, WithGenesis, Rebuild, LoadFrom, ProtocolGenesis, Stocked, Positive;
    hide SameLedger, KeyUnused, RoomFor;
    var d := Run(WithGenesis(genesis), steps);
    var e := d.(faucet := f);
    RestartRestores(e, genesis);
    RebuildOnly(e);
    RestartOfLocalRun(genesis, steps);
    if SameLedger(d.ledger, Rebuild(e).0.ledger, genesis.sender) {
      IncrementalRun(genesis, steps);
      RebuildSettles(e);
      SameFaucet(d, Rebuild(e).0, genesis.sender);
    }
  }

  /** Equal ledgers over the same graph come from the same faucet. */
  lemma SameFaucet(d: Dag, r: Dag, key: Address)
    requires Incremental(d) && Inv(r, 0, {}) && r.graph == d.graph && SameLedger(d.ledger, r.ledger, key)
    requires Positive(d.faucet) && Positive(r.faucet)
    ensures r.faucet == d.faucet
  {
    hide Grown, AllOffered, AppliedAll, Net, CreditNet, Count, InNonceOrder, Sound, Funded;
    if r.conflicts != map[] { LosersShow(d, r, key); }
    assert d.conflicts.Keys + {} == {} && r.conflicts.Keys + {} == {};
    var h := AppliedAll(d.graph, {});
    forall a ensures At(r.faucet, a) == At(d.faucet, a) {
      assert At(d.ledger.balances, a) == At(d.faucet, a) + Net(h, a);
      assert At(r.ledger.balances, a) == At(r.faucet, a) + Net(h, a);
    }
    SameEntries(d.faucet, r.faucet);
  }

  lemma SameEntries(f: map<Address, nat>, g: map<Address, nat>)
    requires Positive(f) && Positive(g) && forall a :: At(f, a) == At(g, a)
    ensures f == g
  {
    forall a ensures a in f <==> a in g { assert At(f, a) == At(g, a); }
    forall a | a in f ensures f[a] == g[a] { assert At(f, a) == At(g, a); }
  }
}
