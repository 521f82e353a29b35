/** A replica's vertices in another attach order: any order that puts parents first builds a
    replica, and credits and accepts reach it. */
module Reordering {
  import opened Basics
  import opened Economics
  import opened Transactions
  import opened Graphs
  import opened Ancestry
  import opened Building
  import opened Weights
  import opened History
  import opened Dags
  import opened Settlement
  import opened Steps
  import opened Runs
  import opened Safety
  import opened Refinement
  import opened Persistence
  import opened Replicas

  // ---------------------------------------------------------- attach orders

  /** What admission checks of a vertex apart from where it is placed. */
  ghost predicate Checked(tx: DagTransaction) {
    && tx.id != NULL_PARENT && tx.fee == (if tx.IsGenesis() then 0 else FIXED_TRANSACTION_FEE)
    && tx.keyMatchesSender && tx.signatureValid && tx.VerifyRelayProofs()
  }

  /** Stored under its id, checked, and after its parents. */
  ghost predicate InPlace(vs: Vertices, s: seq<TxHash>, i: nat)
    requires i < |s|
  {
    s[i] in vs && vs[s[i]].id == s[i] && Checked(vs[s[i]]) && FirstAt(vs, s, i)
  }

  /** Part of an attach order: distinct vertices, the genesis first, parents before children. */
  ghost predicate Topological(vs: Vertices, s: seq<TxHash>) {
    NoDup(s) && forall i :: 0 <= i < |s| ==> InPlace(vs, s, i)
  }

  lemma GrownTopological(g: Graph)
    requires Grown(g)
    ensures Topological(g.vertices, g.order) && g.order != [] && ToSet(g.order) == g.vertices.Keys
  {
    hide Grown, Checked;
    GrownShaped(g);
    GrownLined(g);
    forall i | 0 <= i < |g.order| ensures InPlace(g.vertices, g.order, i) {
      StoredChecked(g, i);
      assert LinedAt(g.vertices, g.order, i);
    }
  }

  lemma StoredChecked(g: Graph, i: nat)
    requires Grown(g) && i < |g.order|
    ensures g.order[i] in g.vertices && Checked(g.vertices[g.order[i]])
  {
    hide Admitted, Build;
    StoredFee(g, i);
  }

  /** Admission lets the next vertex of such an order through. */
  lemma NextChecked(vs: Vertices, s: seq<TxHash>, n: nat, ws: Vertices)
    requires n < |s| && NoDup(s) && InPlace(vs, s, n) && ws.Keys == ToSet(s[..n]) && NULL_PARENT !in ws
    ensures vs[s[n]].id != NULL_PARENT && CheckVertex(ws, vs[s[n]]) == Ok
  {
    assert n == 0 ==> ws.Keys == {};
  }

  lemma BuiltKeys(txs: seq<DagTransaction>)
    requires Admitted(txs)
    ensures var g := Build(txs);
      && |g.order| == |txs| && g.vertices.Keys == ToSet(g.order) && NULL_PARENT !in g.vertices
      && forall i :: 0 <= i < |txs| ==>
        g.order[i] == txs[i].id && txs[i].id in g.vertices && g.vertices[txs[i].id] == txs[i]
  {
    hide Build;
    BuildLists(txs);
    BuildShaped(txs);
  }

  lemma {:induction false} OrderAdmitted(vs: Vertices, s: seq<TxHash>, txs: seq<DagTransaction>, n: nat)
    requires Topological(vs, s) && n <= |s| && (forall i :: 0 <= i < |s| ==> s[i] in vs) && txs == Bodies(vs, s)
    ensures Admitted(txs[..n])
  {
    hide Build, CheckVertex, Topological, InPlace, Bodies;
    if n > 0 {
      OrderAdmitted(vs, s, txs, n - 1);
      var p := txs[..n - 1];
      BuiltKeys(p);
      SameIds(vs, s, txs, n - 1, Build(p).order);
      NextChecked(vs, s, n - 1, Build(p).vertices);
      assert txs[..n] == p + [txs[n - 1]];
      BuildStep(p, txs[n - 1]);
    }
  }

  lemma SameIds(vs: Vertices, s: seq<TxHash>, txs: seq<DagTransaction>, n: nat, order: seq<TxHash>)
    requires Topological(vs, s) && n < |s| && (forall i :: 0 <= i < |s| ==> s[i] in vs) && txs == Bodies(vs, s)
    requires |order| == n && forall i :: 0 <= i < n ==> order[i] == txs[..n][i].id
    ensures order == s[..n] && NoDup(s) && InPlace(vs, s, n) && txs[n] == vs[s[n]]
  {
    hide Checked, FirstAt;
    forall i | 0 <= i < n ensures order[i] == s[i] { assert InPlace(vs, s, i); }
  }

  lemma OrderIds(vs: Vertices, s: seq<TxHash>)
    requires Topological(vs, s)
    ensures forall i :: 0 <= i < |s| ==> s[i] in vs && vs[s[i]].id == s[i]
  {
    hide Checked, FirstAt;
    forall i | 0 <= i < |s| ensures s[i] in vs && vs[s[i]].id == s[i] { assert InPlace(vs, s, i); }
  }

  /** Whatever order puts every parent first builds a grown graph with those vertices. */
  lemma OrderBuilds(vs: Vertices, s: seq<TxHash>) returns (g: Graph)
    requires Topological(vs, s) && s != [] && ToSet(s) == vs.Keys
    ensures Grown(g) && g.vertices == vs && g.order == s
  {
    hide Build, Admitted, InPlace;
    assert forall i :: 0 <= i < |s| ==> s[i] in ToSet(s);
    var txs := Bodies(vs, s);
    OrderIds(vs, s);
    OrderAdmitted(vs, s, txs, |s|);
    assert txs[..|s|] == txs;
    BuildGrown(txs);
    g := Build(txs);
    BuiltKeys(txs);
    forall i | 0 <= i < |s| ensures g.order[i] == s[i] && g.vertices[s[i]] == vs[s[i]] { assert txs[i].id == s[i]; }
    assert g.order == s;
    forall h | h in vs ensures g.vertices[h] == vs[h] { assert h in s; }
  }

  // --------------------------------------------------------------- replicas

  /** The same vertices and faucet, in an attach order of its own. */
  ghost predicate Twin(d: Dag, e: Dag) {
    Replica(d) && Replica(e) && d.graph.vertices == e.graph.vertices && d.faucet == e.faucet
  }

  /** Every parents-first order of a replica's vertices is the attach order of a replica. */
  lemma Reordered(d: Dag, s: seq<TxHash>) returns (e: Dag)
    requires Replica(d) && Topological(d.graph.vertices, s) && ToSet(s) == d.graph.vertices.Keys
    ensures Twin(d, e) && e.graph.order == s
  {
    hide Grown, WithinBound, Topological;
    GrownTopological(d.graph);
    assert d.graph.order[0] in ToSet(d.graph.order);
    assert s != [];
    var g := OrderBuilds(d.graph.vertices, s);
    GrownLined(d.graph);
    GrownLined(g);
    e := d.(graph := g);
  }

  lemma TopologicalMore(vs: Vertices, s: seq<TxHash>, id: TxHash)
    requires Topological(vs, s) && s != [] && id !in s && id in vs && vs[id].id == id && Checked(vs[id])
    requires !vs[id].IsGenesis()
    requires vs[id].parent1 in s && vs[id].parent2 in s
    ensures Topological(vs, s + [id])
  {
    hide Checked;
    var t := s + [id];
    forall i | 0 <= i < |t| ensures InPlace(vs, t, i) {
      if i < |s| {
        assert InPlace(vs, s, i);
        assert t[..i] == s[..i];
      } else {
        assert t[..i] == s;
      }
    }
  }

  lemma Predecessors(vs: Vertices, s: seq<TxHash>, n: nat)
    requires Topological(vs, s) && 0 < n < |s|
    ensures s[n] in vs
    ensures var tx, id := vs[s[n]], s[n];
      && tx.id == id && Checked(tx) && !tx.IsGenesis() && id !in s[..n]
      && tx.parent1 in s[..n] && tx.parent2 in s[..n] && IsParent(tx, tx.parent1) && IsParent(tx, tx.parent2)
  {
    assert InPlace(vs, s, n);
    var tx := vs[s[n]];
    var i :| 0 <= i < n && s[i] == tx.parent1;
    var j :| 0 <= j < n && s[j] == tx.parent2;
    assert InPlace(vs, s, i) && InPlace(vs, s, j);
  }

  /** The members of a parent-closed set, in attach order. */
  lemma {:induction false} FrontTopological(vs: Vertices, s: seq<TxHash>, c: set<TxHash>, n: nat)
    requires Topological(vs, s) && 0 < n <= |s| && ParentClosed(vs, c) && s[0] in c
    ensures Topological(vs, Filtered(s, c, n)) && Filtered(s, c, n) != []
  {
    hide ParentClosed, Topological, IsParent, ToSet, Checked;
    if n == 1 {
      Single(vs, s);
      assert Filtered(s, c, 0) == [] && [] + [s[0]] == [s[0]];
    } else {
      FrontTopological(vs, s, c, n - 1);
      FilteredElements(s, c, n - 1);
      if s[n - 1] in c {
        Predecessors(vs, s, n - 1);
        ParentsFiltered(vs, s, c, n - 1, Filtered(s, c, n - 1));
        TopologicalMore(vs, Filtered(s, c, n - 1), s[n - 1]);
      } else {
        assert Filtered(s, c, n - 1) + [] == Filtered(s, c, n - 1);
      }
    }
  }

  lemma Single(vs: Vertices, s: seq<TxHash>)
    requires Topological(vs, s) && s != []
    ensures Topological(vs, [s[0]])
  {
    hide Checked;
    assert InPlace(vs, s, 0);
    assert InPlace(vs, [s[0]], 0);
  }

  lemma ParentsFiltered(vs: Vertices, s: seq<TxHash>, c: set<TxHash>, n: nat, f: seq<TxHash>)
    requires n < |s| && s[n] in vs && s[n] in c && s[n] !in s[..n] && ParentClosed(vs, c)
    requires ToSet(f) == ToSet(s[..n]) * c
    requires var tx := vs[s[n]];
      tx.parent1 in s[..n] && tx.parent2 in s[..n] && IsParent(tx, tx.parent1) && IsParent(tx, tx.parent2)
    ensures vs[s[n]].parent1 in f && vs[s[n]].parent2 in f && s[n] !in f
  {
    hide IsParent;
    var tx := vs[s[n]];
    assert tx.parent1 in ToSet(f) && tx.parent2 in ToSet(f);
    assert s[n] !in ToSet(f);
  }

  /** And then the others, in attach order. */
  lemma {:induction false} BackTopological(vs: Vertices, s: seq<TxHash>, c: set<TxHash>, front: seq<TxHash>, n: nat)
    requires Topological(vs, s) && n <= |s| && Topological(vs, front) && front != [] && s != [] && s[0] in c
    requires ToSet(front) == c
    requires c <= vs.Keys
    ensures Topological(vs, front + Filtered(s, vs.Keys - c, n))
  {
    hide Topological, IsParent, ToSet, Checked;
    var rest := vs.Keys - c;
    if n == 0 {
      assert front + [] == front;
    } else {
      BackTopological(vs, s, c, front, n - 1);
      var back := Filtered(s, rest, n - 1);
      FilteredElements(s, rest, n - 1);
      if s[n - 1] in rest {
        Predecessors(vs, s, n - 1);
        OrderIds(vs, s);
        ParentsPlaced(vs, s, c, n - 1, front, back);
        TopologicalMore(vs, front + back, s[n - 1]);
        assert front + (back + [s[n - 1]]) == front + back + [s[n - 1]];
      } else {
        assert back + [] == back;
      }
    }
  }

  lemma ParentsPlaced(vs: Vertices, s: seq<TxHash>, c: set<TxHash>, n: nat, front: seq<TxHash>, back: seq<TxHash>)
    requires n < |s| && s[n] in vs && s[n] !in c && s[n] !in s[..n] && ToSet(front) == c
    requires ToSet(back) == ToSet(s[..n]) * (vs.Keys - c)
    requires vs[s[n]].parent1 in s[..n] && vs[s[n]].parent2 in s[..n] && (forall i :: 0 <= i < |s| ==> s[i] in vs)
    ensures vs[s[n]].parent1 in front + back && vs[s[n]].parent2 in front + back && s[n] !in front + back
  {
    forall x | x in s[..n] ensures x in front + back { assert x in ToSet(front) || x in ToSet(back); }
    assert s[n] !in ToSet(front) && s[n] !in ToSet(back);
  }

  /** The members of `c` come before all others. */
  ghost predicate Leads(s: seq<TxHash>, c: set<TxHash>) {
    forall i, j :: 0 <= i < |s| && 0 <= j < |s| && s[i] in c && s[j] !in c ==> i < j
  }

  /** The replica that attached a vertex and its ancestors before everything else. */
  lemma ClosureFirst(d: Dag, u: TxHash) returns (e: Dag)
    requires Replica(d) && u in d.graph.vertices
    ensures Twin(d, e)
    ensures Leads(e.graph.order, Closure(d.graph.vertices, u))
  {
    hide Grown, WithinBound, Topological, Closure, ToSet;
    var vs, s := d.graph.vertices, d.graph.order;
    var c := Closure(vs, u);
    GrownTopological(d.graph);
    ClosureFacts(d.graph, u);
    var front, back := Filtered(s, c, |s|), Filtered(s, vs.Keys - c, |s|);
    FrontTopological(vs, s, c, |s|);
    FilteredAll(s, c);
    BackTopological(vs, s, c, front, |s|);
    FilteredAll(s, vs.Keys - c);
    FrontThenBack(front, back, vs.Keys, c);
    e := Reordered(d, front + back);
  }

  lemma ClosureFacts(g: Graph, u: TxHash)
    requires Grown(g) && u in g.vertices
    ensures var c := Closure(g.vertices, u); c <= g.vertices.Keys && ParentClosed(g.vertices, c) && g.order[0] in c
    ensures forall i :: 0 <= i < |g.order| ==> g.order[i] in g.vertices
  {
    hide Grown, Closure;
    GrownShaped(g);
    ClosureIsClosed(g.vertices, u);
    ClosureStored(g.vertices, u);
    var i := IndexOf(g, u);
    GenesisBelow(g, i);
  }

  lemma FrontThenBack(front: seq<TxHash>, back: seq<TxHash>, all: set<TxHash>, c: set<TxHash>)
    requires ToSet(front) == c <= all && ToSet(back) == all - c
    ensures ToSet(front + back) == all
    ensures Leads(front + back, c)
  {
    var s := front + back;
    forall x ensures x in s <==> x in all { assert x in s <==> x in ToSet(front) || x in ToSet(back); }
    forall i | 0 <= i < |s| ensures s[i] in c <==> i < |front| {
      if i < |front| { assert s[i] in ToSet(front); } else { assert s[i] == back[i - |front|] && s[i] in ToSet(back); }
    }
  }

  // ------------------------------------------------------------ reachability

  lemma {:induction false} RunThen(d: Dag, s: seq<Step>, t: seq<Step>)
    ensures Run(d, s + t) == Run(Run(d, s), t)
    ensures AllowedRun(d, s + t) <==> AllowedRun(d, s) && AllowedRun(Run(d, s), t)
    decreases |t|
  {
    hide Exec, Allowed;
    if t == [] {
      assert s + t == s;
    } else {
      var n := |t| - 1;
      RunThen(d, s, t[..n]);
      assert (s + t)[..|s + t| - 1] == s + t[..n] && (s + t)[|s + t| - 1] == t[n];
    }
  }

  function Credits(f: map<Address, nat>, keys: seq<Address>): seq<Step>
    requires forall i :: 0 <= i < |keys| ==> keys[i] in f
  {
    seq(|keys|, i requires 0 <= i < |keys| => CreditStep(keys[i], f[keys[i]]))
  }

  function Accepts(txs: seq<DagTransaction>): seq<Step> {
    seq(|txs|, i requires 0 <= i < |txs| => AcceptStep(txs[i]))
  }

  /** A run of one step more. */
  lemma RunMore(d: Dag, steps: seq<Step>, s: Step)
    ensures Run(d, steps + [s]) == Exec(Run(d, steps), s)
    ensures AllowedRun(d, steps + [s]) <==> AllowedRun(d, steps) && Allowed(Run(d, steps), s)
  {
    hide Exec, Allowed;
    assert (steps + [s])[..|steps|] == steps;
  }

  /** Handing out a faucet is an allowed run. */
  lemma {:induction false} CreditsRun(genesis: DagTransaction, f: map<Address, nat>, keys: seq<Address>)
    requires ProtocolGenesis(genesis) && Positive(f) && NoDup(keys) && Sum(f) + HARD_CAP <= U64_MAX
    requires forall i :: 0 <= i < |keys| ==> keys[i] in f
    ensures Run(WithGenesis(genesis), Credits(f, keys)) == CreditAll(WithGenesis(genesis), f, keys)
    ensures AllowedRun(WithGenesis(genesis), Credits(f, keys))
  {
    hide WithGenesis, CreditAccount, ProtocolGenesis, Positive, Sum, Inv, Restrict;
    if keys != [] {
      var n := |keys| - 1;
      CreditsRun(genesis, f, keys[..n]);
      CreditsExact(genesis, f, keys[..n]);
      RestrictMore(f, keys, n);
      hide Run, AllowedRun;
      RunMore(WithGenesis(genesis), Credits(f, keys[..n]), CreditStep(keys[n], f[keys[n]]));
      assert Credits(f, keys) == Credits(f, keys[..n]) + [CreditStep(keys[n], f[keys[n]])];
    }
  }

  /** Accepting the stored vertices one by one is an allowed run that rebuilds their graph. */
  lemma {:induction false} AcceptsRun(d: Dag, b: nat, u: set<TxHash>, txs: seq<DagTransaction>, k: nat)
      returns (b': nat, u': set<TxHash>)
    requires 1 <= k <= |txs| && Admitted(txs) && Room(d.faucet, |txs|)
    requires forall i :: 0 <= i < |txs| ==> Offered(txs[i])
    requires Inv(d, b, u) && d.graph == Build(txs[..1])
    ensures var m := Run(d, Accepts(txs[1..k]));
      && AllowedRun(d, Accepts(txs[1..k])) && Inv(m, b', u') && m.faucet == d.faucet && m.graph == Build(txs[..k])
  {
    hide Inv, Build, Offered, Accept, Room, Allowed;
    b', u' := b, u;
    if k > 1 {
      b', u' := AcceptsRun(d, b, u, txs, k - 1);
      var m := Run(d, Accepts(txs[1..k - 1]));
      b', u' := AcceptNext(m, b', u', txs, k - 1);
      RunMore(d, Accepts(txs[1..k - 1]), AcceptStep(txs[k - 1]));
      assert Accepts(txs[1..k]) == Accepts(txs[1..k - 1]) + [AcceptStep(txs[k - 1])];
    }
  }

  lemma RestartableParts(d: Dag, genesis: DagTransaction)
    requires Restartable(d, genesis)
    ensures ProtocolGenesis(genesis) && Positive(d.faucet) && Sum(d.faucet) + HARD_CAP <= U64_MAX
    ensures NoDup(Keys(d.faucet)) && Rebuild(d).1 == Ok && RoomFor(d, 0)
  {
    hide Rebuild, Positive, ProtocolGenesis, Stocked;
    RebuildSettles(d);
  }

  lemma SameRoom(d: Dag, m: Dag)
    requires RoomFor(d, 0) && m.graph == d.graph && m.faucet == d.faucet
    ensures Allowed(m, ResolveStep)
  {}

  /** Credits, accepts and one rebuild reach every state that a rebuild of a restartable node
      can give: no attach order is out of reach. */
  lemma EveryRebuildReached(d: Dag, genesis: DagTransaction) returns (steps: seq<Step>)
    requires Restartable(d, genesis)
    ensures AllowedRun(WithGenesis(genesis), steps) && Run(WithGenesis(genesis), steps) == Rebuild(d).0
    ensures Rebuild(d).0.graph == d.graph && Rebuild(d).0.faucet == d.faucet
  {
    hide Run, AllowedRun, WithGenesis, Build, Grown, Rebuild, CreditAll, Keys, Credits, Accepts;
    hide Insert, Restartable, Listed;
    GrownLists(d, genesis);
    var txs, keys := Listed(d.graph), Keys(d.faucet);
    AllCredits(d, genesis, keys);
    RestartableParts(d, genesis);
    CreditsRun(genesis, d.faucet, keys);
    var start := CreditAll(WithGenesis(genesis), d.faucet, keys);
    FirstBuilt(txs, genesis);
    var b, u := AcceptsRun(start, 1, {}, txs, |txs|);
    assert txs[..|txs|] == txs;
    var accepts := Accepts(txs[1..|txs|]);
    var m := Run(start, accepts);
    RebuildSame(d, m);
    RebuildOnly(d);
    RunThen(WithGenesis(genesis), Credits(d.faucet, keys), accepts);
    SameRoom(d, m);
    RunMore(WithGenesis(genesis), Credits(d.faucet, keys) + accepts, ResolveStep);
    steps := Credits(d.faucet, keys) + accepts + [ResolveStep];
  }
}
