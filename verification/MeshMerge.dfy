/** `merge_offline_graphs` (src/dag/sync.rs). */
module MeshMerge {
  import opened Basics
  import opened Economics
  import opened Transactions
  import opened Graphs
  import opened Ancestry
  import opened Building
  import opened Dags
  import opened Settlement
  import opened Steps
  import opened Runs
  import opened Safety
  import opened Engine
  import opened Kahn
  import TopoOrder

  /** The deduplicated batch can be ordered: every parent known, no cycle. */
  ghost predicate Orderable(batch: Vertices, local: set<TxHash>) {
    !HasCycle(batch, local) && !exists p :: Missing(batch, local, p)
  }

  lemma OrderCovers(batch: Vertices, local: set<TxHash>)
    requires !HasCycle(batch, local)
    ensures Sequenced(batch, local, KahnOrder(batch, local)) && ToSet(KahnOrder(batch, local)) == batch.Keys
    ensures forall i :: 0 <= i < |KahnOrder(batch, local)| ==> KahnOrder(batch, local)[i] in batch
  {
    hide KahnOrder;
    KahnOrderLaw(batch, local);
  }

  /** The order in which an orderable batch is inserted. */
  ghost function InsertOrder(batch: Vertices, local: set<TxHash>): seq<DagTransaction>
    requires Orderable(batch, local)
  {
    OrderCovers(batch, local);
    Bodies(batch, KahnOrder(batch, local))
  }

  method InsertAll(dag: KronDag, txs: seq<DagTransaction>) returns (r: Merged)
    requires dag.Valid() && forall i :: 0 <= i < |txs| ==> txs[i].id != NULL_PARENT
    modifies dag
    ensures dag.Valid() && (dag.View(), r) == MergeLoop(old(dag.View()), txs, |txs|)
  {
    hide Grown, MergeOne;
    r := Inserted(0);
    for i := 0 to |txs|
      invariant dag.Valid() && r.Inserted? && (dag.View(), r) == MergeLoop(old(dag.View()), txs, i)
    {
      r := InsertNext(dag, txs[i], r.count);
      if !r.Inserted? {
        StoppedMerge(old(dag.View()), txs, i + 1);
        return;
      }
    }
  }

  /** The loop body: skip a known id, check the parents, store. */
  method InsertNext(dag: KronDag, tx: DagTransaction, count: nat) returns (r: Merged)
    requires dag.Valid() && tx.id != NULL_PARENT
    modifies dag
    ensures dag.Valid() && (dag.View(), r) == MergeOne(old(dag.View()), tx, count)
  {
    hide Grown, Insert, CheckVertex;
    if tx.id in dag.vertices {
      return Inserted(count);
    }
    if !tx.IsGenesis() {
      if tx.parent1 == NULL_PARENT || tx.parent1 !in dag.vertices {
        return Merged.MissingParent(tx.parent1);
      }
      if tx.parent2 == NULL_PARENT || tx.parent2 !in dag.vertices {
        return Merged.MissingParent(tx.parent2);
      }
    }
    var o := dag.InsertGraphOnlyInPlace(tx);
    r := if o == Ok then Inserted(SatU32(count + 1)) else AttachFailed(o.error);
  }

  lemma {:induction false} StoppedMerge(d: Dag, txs: seq<DagTransaction>, k: nat)
    requires k <= |txs| && !MergeLoop(d, txs, k).1.Inserted?
    ensures MergeLoop(d, txs, |txs|) == MergeLoop(d, txs, k)
    decreases |txs| - k
  {
    hide MergeOne;
    if k < |txs| { StoppedMerge(d, txs, k + 1); }
  }

  /** What `merge_offline_graphs` makes of the deduplicated batch: nothing, with the parent or
      the cycle named, or all of it in Kahn order. */
  ghost predicate Merges(d: Dag, batch: Vertices, m: Dag, r: Merged) {
    var local := d.graph.vertices.Keys;
    && (!Orderable(batch, local) ==>
          m == d && if exists p :: Missing(batch, local, p) then r.MissingParent? &&
          Missing(batch, local, r.parent) else r.CyclicBatch?)
    && (Orderable(batch, local) ==> (m, r) == MergeOrdered(d, InsertOrder(batch, local)))
  }

  /** A batch with an unknown parent or a cycle changes nothing; any other is inserted in
      Kahn order and settled by one rebuild. */
  method MergeOfflineGraphs(dag: KronDag, incoming: seq<DagTransaction>) returns (r: Merged)
    requires dag.Valid() && forall i :: 0 <= i < |incoming| ==> incoming[i].id != NULL_PARENT
    modifies dag
    ensures dag.Valid()
    ensures Merges(old(dag.View()), FirstById(incoming), dag.View(), r)
  {
    hide Grown, MergeLoop, Rebuild, KahnOrder, HasCycle, Missing, Sequenced;
    var topo := TopoOrder.TopoOrderIncoming(dag.vertices.Keys, incoming);
    match topo
    case MissingParent(p) => return Merged.MissingParent(p);
    case CyclicBatch => return Merged.CyclicBatch;
    case Ordered(txs) =>
      ghost var batch, local := FirstById(incoming), dag.vertices.Keys;
      assert Orderable(batch, local);
      BatchIds(incoming);
      SameBodies(batch, KahnOrder(batch, local), txs);
      assert txs == InsertOrder(batch, local);
      r := InsertAll(dag, txs);
      if r.Inserted? && r.count > 0 {
        var o := dag.ResolveConflictsAndRebuildLedger();
        if o != Ok {
          r := AttachFailed(o.error);
        }
      }
  }

  lemma SameBodies(batch: Vertices, s: seq<TxHash>, txs: seq<DagTransaction>)
    requires TopoOrder.Listing(batch, s, txs)
    requires forall k :: k in batch ==> batch[k].id != NULL_PARENT
    ensures (forall i :: 0 <= i < |s| ==> s[i] in batch) && Bodies(batch, s) == txs
    ensures forall i :: 0 <= i < |txs| ==> txs[i].id != NULL_PARENT
  {}

  /** The first vertex under each id really has that id. */
  lemma {:induction false} BatchIds(txs: seq<DagTransaction>)
    ensures FirstById(txs).Keys == Ids(txs)
    ensures forall k :: k in FirstById(txs) ==> FirstById(txs)[k].id == k && FirstById(txs)[k] in txs
  {
    if txs != [] {
      var n := |txs| - 1;
      BatchIds(txs[..n]);
      IdsMore(txs, n);
      assert txs[..n + 1] == txs;
    }
  }

  /** Neither the order in which a batch is offered nor repetitions in it matter, even when one
      vertex comes with different relay sidecars: the ids are inserted in the same order, and
      a missing parent or a cycle is found in both or in neither.  The only assumption is that
      an id fixes the parents, which it hashes. */
  lemma BatchIndependent(txs: seq<DagTransaction>, us: seq<DagTransaction>, local: set<TxHash>)
    requires Ids(txs) == Ids(us)
    requires forall i, j :: 0 <= i < |txs| && 0 <= j < |us| && txs[i].id == us[j].id ==>
      Parents(txs[i]) == Parents(us[j])
    ensures var a, b := FirstById(txs), FirstById(us);
      && a.Keys == b.Keys && KahnOrder(a, local) == KahnOrder(b, local)
      && (Orderable(a, local) <==> Orderable(b, local))
  {
    hide FirstById, KahnOrder, Ids, HasCycle, Missing, Parents;
    BatchIds(txs);
    BatchIds(us);
    var a, b := FirstById(txs), FirstById(us);
    forall k | k in a ensures Parents(a[k]) == Parents(b[k]) {
      var i :| 0 <= i < |txs| && txs[i] == a[k];
      var j :| 0 <= j < |us| && us[j] == b[k];
    }
    ShapeDecides(a, b, local);
  }

  // ----------------------------------------------------------------- theorem

  /** Passes every check that does not depend on what is stored. */
  ghost predicate SoundBody(tx: DagTransaction) {
    && !tx.IsGenesis() && tx.id != NULL_PARENT && tx.fee == FIXED_TRANSACTION_FEE
    && tx.keyMatchesSender && tx.signatureValid && tx.VerifyRelayProofs()
  }

  /** Sound, and names two parents. */
  ghost predicate Insertable(tx: DagTransaction) {
    SoundBody(tx) && tx.parent1 != NULL_PARENT && tx.parent2 != NULL_PARENT
  }

  /** Every parent is stored or comes earlier. */
  ghost predicate Placed(local: set<TxHash>, txs: seq<DagTransaction>, i: nat)
    requires i < |txs|
  {
    forall q :: IsParent(txs[i], q) ==> q in local + Ids(txs[..i])
  }

  ghost predicate Distinct(txs: seq<DagTransaction>) {
    forall i, j :: 0 <= i < j < |txs| ==> txs[i].id != txs[j].id
  }

  /** An ordered batch: distinct ids, costs that fit, parents first. */
  ghost predicate InOrder(local: set<TxHash>, txs: seq<DagTransaction>) {
    && Distinct(txs) && (forall i :: 0 <= i < |txs| ==> Offered(txs[i]))
    && forall i :: 0 <= i < |txs| ==> Placed(local, txs, i)
  }

  /** The i-th vertex is new and can be stored, or is stored already. */
  ghost predicate Welcome(local: set<TxHash>, tx: DagTransaction) {
    tx.id in local || Insertable(tx)
  }

  /** With its parents in place a vertex is inserted if and only if it is sound; otherwise the
      state is left alone. */
  lemma OneExact(m: Dag, count: nat, local: set<TxHash>, txs: seq<DagTransaction>, i: nat)
    requires i < |txs| && InOrder(local, txs) && m.graph.vertices != map[]
    requires m.graph.vertices.Keys == local + Ids(txs[..i])
    ensures MergeOne(m, txs[i], count).1.Inserted? <==> Welcome(local, txs[i])
    ensures !Welcome(local, txs[i]) ==> MergeOne(m, txs[i], count).0 == m
  {
    var tx, vs := txs[i], m.graph.vertices;
    NotEarlier(txs, i);
    assert Placed(local, txs, i);
    hide Insert, Ids, InOrder;
    assert tx.parent1 != NULL_PARENT ==> tx.parent1 in vs by { assert IsParent(tx,
        tx.parent1) || tx.parent1 == NULL_PARENT; }
    assert tx.parent2 != NULL_PARENT ==> tx.parent2 in vs by { assert IsParent(tx,
        tx.parent2) || tx.parent2 == NULL_PARENT; }
  }

  lemma NotEarlier(txs: seq<DagTransaction>, i: nat)
    requires i < |txs| && Distinct(txs)
    ensures txs[i].id !in Ids(txs[..i])
  {}

  /** The loop gets through the first n vertices if and only if all of them are welcome. */
  lemma {:induction false} LoopExact(d: Dag, b: nat, unsettled: set<TxHash>, txs: seq<DagTransaction>, n: nat)
    requires Inv(d, b, unsettled) && n <= |txs| && InOrder(d.graph.vertices.Keys, txs)
    ensures MergeLoop(d, txs, n).1.Inserted? <==> forall i :: 0 <= i < n ==> Welcome(d.graph.vertices.Keys, txs[i])
    ensures MergeLoop(d, txs, n).1.Inserted? ==>
      MergeLoop(d, txs, n).0.graph.vertices.Keys == d.graph.vertices.Keys + Ids(txs[..n])
  {
    hide Inv, MergeOne, InOrder, Welcome, LoopKept, Ids, Offered;
    AllOf(d.graph.vertices.Keys, txs);
    MergeLoopKeeps(d, b, unsettled, txs, n);
    if MergeLoop(d, txs, n).1.Inserted? {
      LoopKeys(d, b, unsettled, MergeLoop(d, txs, n).0, MergeLoop(d, txs, n).1, Ids(txs[..n]), n);
    }
    if n > 0 {
      LoopExact(d, b, unsettled, txs, n - 1);
      var (m, r) := MergeLoop(d, txs, n - 1);
      if r.Inserted? {
        NotEmpty(d, b, unsettled, m);
        OneExact(m, r.count, d.graph.vertices.Keys, txs, n - 1);
      }
    }
  }

  lemma AllOf(local: set<TxHash>, txs: seq<DagTransaction>)
    requires InOrder(local, txs)
    ensures forall i :: 0 <= i < |txs| ==> Offered(txs[i])
  {}

  lemma NotEmpty(d: Dag, b: nat, unsettled: set<TxHash>, m: Dag)
    requires Inv(d, b, unsettled) && d.graph.vertices.Keys <= m.graph.vertices.Keys
    ensures m.graph.vertices != map[]
  {
    hide Settled;
    GrownShaped(d.graph);
  }

  lemma LoopKeys(d: Dag, b: nat, unsettled: set<TxHash>, m: Dag, r: Merged, ids: set<TxHash>, n: nat)
    requires LoopKept(d, b, unsettled, m, r, ids, n) && r.Inserted?
    ensures m.graph.vertices.Keys == d.graph.vertices.Keys + ids
  {
    hide Inv;
  }

  /** The loop stops at the first unwelcome vertex, with everything before it stored. */
  lemma StopsAt(d: Dag, b: nat, unsettled: set<TxHash>, txs: seq<DagTransaction>, k: nat)
    requires Inv(d, b, unsettled) && k < |txs| && InOrder(d.graph.vertices.Keys, txs)
    requires !Welcome(d.graph.vertices.Keys, txs[k])
    requires forall i :: 0 <= i < k ==> Welcome(d.graph.vertices.Keys, txs[i])
    ensures !MergeLoop(d, txs, |txs|).1.Inserted?
    ensures MergeLoop(d, txs, |txs|).0.graph.vertices.Keys == d.graph.vertices.Keys + Ids(txs[..k])
  {
    hide Inv, MergeOne, InOrder, Welcome;
    LoopExact(d, b, unsettled, txs, k);
    var (m, r) := MergeLoop(d, txs, k);
    NotEmpty(d, b, unsettled, m);
    OneExact(m, r.count, d.graph.vertices.Keys, txs, k);
    StoppedMerge(d, txs, k + 1);
  }

  /** Some new vertex is unsound, and nothing new comes before it. */
  ghost predicate BadFirst(local: set<TxHash>, txs: seq<DagTransaction>) {
    exists k :: 0 <= k < |txs| && !Welcome(local, txs[k]) && forall j :: 0 <= j < k ==> txs[j].id in local
  }

  ghost predicate AllWelcome(local: set<TxHash>, txs: seq<DagTransaction>) {
    forall i :: 0 <= i < |txs| ==> Welcome(local, txs[i])
  }

  /** The ledger accounts for every stored vertex. */
  ghost predicate Balanced(d: Dag) {
    d.ledger.txCount + |d.conflicts| + 1 == |d.graph.vertices|
  }

  /** A merge of an ordered batch succeeds if and only if every new vertex in it is sound.
      Afterwards the ledger accounts for every stored vertex if and only if that is so, or the
      first new vertex is already unsound: a bad body behind a new good one leaves the good
      one stored and unsettled. */
  lemma MergeExact(d: Dag, b: nat, txs: seq<DagTransaction>)
    requires Inv(d, b, {}) && InOrder(d.graph.vertices.Keys, txs) && RoomFor(d, |txs|)
    ensures var (m, r) := MergeOrdered(d, txs);
      && (r.Inserted? <==> AllWelcome(d.graph.vertices.Keys, txs))
      && (Balanced(m) <==> AllWelcome(d.graph.vertices.Keys, txs) || BadFirst(d.graph.vertices.Keys, txs))
  {
    hide Inv, InOrder, Welcome, MergeOrdered, MergeLoop, RoomFor, Balanced, BadFirst, Allowed, AllWelcome;
    AllOf(d.graph.vertices.Keys, txs);
    OrderedAllowed(d, txs);
    LoopAll(d, b, {}, txs);
    OrderedSucceeds(d, b, {}, txs);
    PartialMerge(d, b, txs);
    if !AllWelcome(d.graph.vertices.Keys, txs) {
      FailedKeys(d, b, txs);
    }
  }

  lemma OrderedAllowed(d: Dag, txs: seq<DagTransaction>)
    requires RoomFor(d, |txs|) && forall i :: 0 <= i < |txs| ==> Offered(txs[i])
    ensures Allowed(d, MergeStep(txs))
  {}

  lemma LoopAll(d: Dag, b: nat, unsettled: set<TxHash>, txs: seq<DagTransaction>)
    requires Inv(d, b, unsettled) && InOrder(d.graph.vertices.Keys, txs)
    ensures MergeLoop(d, txs, |txs|).1.Inserted? <==> AllWelcome(d.graph.vertices.Keys, txs)
  {
    hide Inv, MergeLoop, InOrder, Welcome;
    LoopExact(d, b, unsettled, txs, |txs|);
  }

  /** A failed merge stores nothing if and only if nothing new comes before the bad vertex. */
  lemma FailedKeys(d: Dag, b: nat, txs: seq<DagTransaction>)
    requires Inv(d, b, {}) && InOrder(d.graph.vertices.Keys, txs) && !AllWelcome(d.graph.vertices.Keys, txs)
    ensures MergeOrdered(d, txs).0.graph.vertices.Keys == d.graph.vertices.Keys <==>
      BadFirst(d.graph.vertices.Keys, txs)
  {
    hide Inv, InOrder, Welcome, MergeOrdered, MergeLoop, BadFirst, AllWelcome;
    var local := d.graph.vertices.Keys;
    var k := FirstUnwelcome(local, txs);
    StopsAt(d, b, {}, txs, k);
    LoopIsAll(d, txs);
    SameKeysWhen(local, txs, k);
    BadFirstAt(local, txs, k);
  }

  /** When the loop gets through, so does the rebuild behind it. */
  lemma OrderedSucceeds(d: Dag, b: nat, unsettled: set<TxHash>, txs: seq<DagTransaction>)
    requires Inv(d, b, unsettled) && Allowed(d, MergeStep(txs))
    ensures MergeOrdered(d, txs).1.Inserted? <==> MergeLoop(d, txs, |txs|).1.Inserted?
  {
    hide Inv, MergeLoop, Rebuild, LoopKept;
    MergeLoopKeeps(d, b, unsettled, txs, |txs|);
    var (m, r) := MergeLoop(d, txs, |txs|);
    RebuildAfter(d, b, unsettled, m, r, Ids(txs[..|txs|]), |txs|, |txs|);
  }

  lemma RebuildAfter(a: Dag, b: nat, unsettled: set<TxHash>, m: Dag, r: Merged, ids: set<TxHash>, n: nat, more: nat)
    requires LoopKept(a, b, unsettled, m, r, ids, n) && n <= more && RoomFor(a, more)
    ensures Rebuild(m).1 == Ok
  {
    hide Grown, Settled, Rebuild;
    RebuildSettles(m);
  }

  lemma LoopIsAll(d: Dag, txs: seq<DagTransaction>)
    requires !MergeLoop(d, txs, |txs|).1.Inserted?
    ensures MergeOrdered(d, txs) == MergeLoop(d, txs, |txs|)
  {}

  lemma FirstUnwelcome(local: set<TxHash>, txs: seq<DagTransaction>) returns (k: nat)
    requires !AllWelcome(local, txs)
    ensures k < |txs| && !Welcome(local, txs[k]) && forall i :: 0 <= i < k ==> Welcome(local, txs[i])
  {
    hide Welcome;
    k := 0;
    while k < |txs| && Welcome(local, txs[k])
      invariant k <= |txs| && forall i :: 0 <= i < k ==> Welcome(local, txs[i])
    {
      k := k + 1;
    }
  }

  lemma SameKeysWhen(local: set<TxHash>, txs: seq<DagTransaction>, k: nat)
    requires k <= |txs|
    ensures local + Ids(txs[..k]) == local <==> forall j :: 0 <= j < k ==> txs[j].id in local
  {
    if local + Ids(txs[..k]) == local {
      forall j | 0 <= j < k ensures txs[j].id in local { assert txs[..k][j].id in Ids(txs[..k]); }
    }
  }

  lemma BadFirstAt(local: set<TxHash>, txs: seq<DagTransaction>, k: nat)
    requires k < |txs| && !Welcome(local, txs[k]) && forall i :: 0 <= i < k ==> Welcome(local, txs[i])
    ensures BadFirst(local, txs) <==> forall j :: 0 <= j < k ==> txs[j].id in local
  {
    if BadFirst(local, txs) {
      var l :| 0 <= l < |txs| && !Welcome(local, txs[l]) && forall j :: 0 <= j < l ==> txs[j].id in local;
      assert l <= k;
    }
  }

  /** Kahn order puts every parent in place, each vertex once. */
  lemma OrderedPlaced(batch: Vertices, local: set<TxHash>)
    requires Orderable(batch, local) && forall k :: k in batch ==> batch[k].id == k && Offered(batch[k])
    ensures InOrder(local, InsertOrder(batch, local))
  {
    hide KahnOrder, HasCycle, Offered, InsertOrder, Orderable, Placed, Distinct;
    OrderedIds(batch, local);
    var txs := InsertOrder(batch, local);
    forall i | 0 <= i < |txs| ensures Offered(txs[i]) && Placed(local, txs, i) {
      assert txs[i] in batch.Values;
      PlacedAt(batch, local, i);
    }
    OrderDistinct(batch, local);
  }

  lemma OrderDistinct(batch: Vertices, local: set<TxHash>)
    requires Orderable(batch, local) && forall k :: k in batch ==> batch[k].id == k
    ensures Distinct(InsertOrder(batch, local))
  {
    hide KahnOrder, HasCycle;
    OrderCovers(batch, local);
  }

  lemma PlacedAt(batch: Vertices, local: set<TxHash>, i: nat)
    requires Orderable(batch, local) && i < |InsertOrder(batch, local)|
    requires forall k :: k in batch ==> batch[k].id == k
    ensures Placed(local, InsertOrder(batch, local), i)
  {
    hide KahnOrder, HasCycle;
    OrderCovers(batch, local);
    var s, txs := KahnOrder(batch, local), InsertOrder(batch, local);
    var tx := txs[i];
    forall q | IsParent(tx, q) ensures q in local + Ids(txs[..i]) {
      ParentsListed(tx);
      assert !Missing(batch, local, q);
      if q !in local {
        assert q in Deps(batch, local, s[i]);
        assert q in ToSet(s[..i]);
        var j :| 0 <= j < i && s[j] == q;
        assert txs[..i][j].id == q;
      }
    }
  }

  /** A batch is merged if and only if it can be ordered and each of its bodies is stored
      already or sound. */
  lemma BatchSucceeds(d: Dag, b: nat, unsettled: set<TxHash>, batch: Vertices, m: Dag, r: Merged)
    requires Inv(d, b, unsettled) && RoomFor(d, |batch|) && Merges(d, batch, m, r)
    requires forall k :: k in batch ==> batch[k].id == k && Offered(batch[k])
    ensures r.Inserted? <==>
      Orderable(batch, d.graph.vertices.Keys) && forall k :: k in batch ==> Welcome(d.graph.vertices.Keys, batch[k])
  {
    hide Inv, RoomFor, Orderable, InsertOrder, MergeOrdered, Welcome, InOrder, Offered, Allowed, MergeLoop;
    var local := d.graph.vertices.Keys;
    if Orderable(batch, local) {
      var txs := InsertOrder(batch, local);
      OrderedPlaced(batch, local);
      OrderedIds(batch, local);
      AllOf(local, txs);
      OrderedAllowed(d, txs);
      LoopAll(d, b, unsettled, txs);
      OrderedSucceeds(d, b, unsettled, txs);
      WelcomeAll(batch, local, txs);
    }
  }

  /** The same for a whole batch as it is offered: what decides is which of its bodies are new
      and sound. */
  lemma BatchExact(d: Dag, b: nat, batch: Vertices, m: Dag, r: Merged)
    requires Inv(d, b, {}) && RoomFor(d, |batch|) && Merges(d, batch, m, r)
    requires forall k :: k in batch ==> batch[k].id == k && Offered(batch[k])
    ensures r.Inserted? <==>
      Orderable(batch, d.graph.vertices.Keys) && forall k :: k in batch ==> Welcome(d.graph.vertices.Keys, batch[k])
    ensures Balanced(m) <==> r.Inserted? || !Orderable(batch, d.graph.vertices.Keys)
                             || BadFirst(d.graph.vertices.Keys, InsertOrder(batch, d.graph.vertices.Keys))
  {
    hide Inv, RoomFor, Orderable, InsertOrder, MergeOrdered, Welcome, InOrder, Balanced, BadFirst, Offered, AllWelcome;
    var local := d.graph.vertices.Keys;
    BatchSucceeds(d, b, {}, batch, m, r);
    if Orderable(batch, local) {
      OrderedPlaced(batch, local);
      OrderedIds(batch, local);
      MergeExact(d, b, InsertOrder(batch, local));
    } else {
      BalancedNow(d, b);
    }
  }

  lemma BalancedNow(d: Dag, b: nat)
    requires Inv(d, b, {})
    ensures Balanced(d)
  {
    hide Inv;
    CountsBalance(d, b, {});
  }

  lemma WelcomeAll(batch: Vertices, local: set<TxHash>, txs: seq<DagTransaction>)
    requires Ids(txs) == batch.Keys && (forall i :: 0 <= i < |txs| ==> txs[i] in batch.Values)
    requires forall k :: k in batch ==> batch[k].id == k
    ensures AllWelcome(local, txs) <==> forall k :: k in batch ==> Welcome(local, batch[k])
  {
    hide Welcome;
    forall k | k in batch ensures exists i :: 0 <= i < |txs| && txs[i] == batch[k] {
      assert k in Ids(txs);
      var i :| 0 <= i < |txs| && txs[i].id == k;
      assert txs[i] in batch.Values;
    }
    forall i | 0 <= i < |txs| ensures exists k :: k in batch && batch[k] == txs[i] {
      assert txs[i] in batch.Values;
      var k :| k in batch && batch[k] == txs[i];
    }
  }

  lemma OrderedIds(batch: Vertices, local: set<TxHash>)
    requires Orderable(batch, local) && forall k :: k in batch ==> batch[k].id == k
    ensures Ids(InsertOrder(batch, local)) == batch.Keys && |InsertOrder(batch, local)| == |batch|
    ensures forall i :: 0 <= i < |InsertOrder(batch, local)| ==> InsertOrder(batch, local)[i] in batch.Values
  {
    hide KahnOrder, HasCycle;
    OrderCovers(batch, local);
    var s, txs := KahnOrder(batch, local), InsertOrder(batch, local);
    NoDupCard(s);
    forall k | k in batch ensures k in Ids(txs) {
      assert k in ToSet(s);
      var i :| 0 <= i < |s| && s[i] == k;
      assert txs[i].id == k;
    }
  }

  /** What a successful merge of `batch` into `d` amounts to. */
  ghost predicate MergedUnion(d: Dag, batch: Vertices, m: Dag, r: Merged) {
    && r.Inserted?
    && m.graph.vertices == batch + d.graph.vertices && m.faucet == d.faucet
    && m.graph.genesis == d.graph.genesis
    && |d.graph.order| <= |m.graph.order| && r.count == SatU32(|m.graph.order| - |d.graph.order|)
    && (r.count == 0 ==> m == d)
    && exists b, unsettled :: Inv(m, b, unsettled) && (r.count > 0 ==> b == 0 && unsettled == {})
  }

  /** A merge that reports success stores exactly the union, counts what was new, settles the
      ledger, and repeating it (in any order) reports 0 and changes nothing. */
  lemma MergeIsUnion(d: Dag, b: nat, unsettled: set<TxHash>, batch: Vertices, m: Dag, r: Merged,
                     again: seq<DagTransaction>)
    requires Inv(d, b, unsettled) && RoomFor(d, |batch|) && Merges(d, batch, m, r) && r.Inserted?
    requires forall k :: k in batch ==> batch[k].id == k && Offered(batch[k])
    requires Ids(again) == batch.Keys
    ensures MergedUnion(d, batch, m, r) && MergeOrdered(m, again) == (m, Inserted(0))
  {
    hide InsertOrder, Orderable, MergeOrdered, Allowed, Inv, Looped, MergedUnion, Offered, RoomFor, Inside;
    var txs := InsertOrder(batch, d.graph.vertices.Keys);
    OrderedIds(batch, d.graph.vertices.Keys);
    forall i | 0 <= i < |txs| ensures Offered(txs[i]) { assert txs[i] in batch.Values; }
    OrderedAllowed(d, txs);
    var b', unsettled' := MergeKeeps(d, b, unsettled, txs);
    OrderedInside(d, b, unsettled, txs, batch);
    UnionOf(d, batch, m, r, b', unsettled');
    MergeKnown(m, again);
  }

  lemma UnionOf(d: Dag, batch: Vertices, m: Dag, r: Merged, b: nat, unsettled: set<TxHash>)
    requires r.Inserted? && m.faucet == d.faucet && Inv(m, b, unsettled)
    requires Looped(d.(ledger := m.ledger, conflicts := m.conflicts), m, r, batch.Keys)
    requires Inside(m.graph.vertices, batch + d.graph.vertices)
    requires if r.count > 0 then b == 0 && unsettled == {} else m == d
    ensures MergedUnion(d, batch, m, r) && batch.Keys <= m.graph.vertices.Keys
  {
    hide Inv;
  }

  lemma OrderedInside(d: Dag, b: nat, unsettled: set<TxHash>, txs: seq<DagTransaction>, batch: Vertices)
    requires Inv(d, b, unsettled) && Allowed(d, MergeStep(txs))
    requires forall i :: 0 <= i < |txs| ==> txs[i] in batch.Values
    requires forall k :: k in batch ==> batch[k].id == k
    ensures Inside(MergeOrdered(d, txs).0.graph.vertices, batch + d.graph.vertices)
  {
    hide Inv, MergeLoop;
    var all := batch + d.graph.vertices;
    forall i | 0 <= i < |txs| ensures txs[i].id in d.graph.vertices || (txs[i].id in all && all[txs[i].id] == txs[i]) {
      assert txs[i] in batch.Values;
      var k :| k in batch && batch[k] == txs[i];
    }
    LoopInside(d, b, unsettled, txs, all, |txs|);
  }

  /** The loop only stores bodies of the batch. */
  lemma {:induction false} LoopInside(d: Dag, b: nat, unsettled: set<TxHash>, txs: seq<DagTransaction>,
                                      all: Vertices, n: nat)
    requires Inv(d, b, unsettled) && n <= |txs| && Inside(d.graph.vertices, all)
    requires forall i :: 0 <= i < |txs| ==> Offered(txs[i])
    requires forall i :: 0 <= i < |txs| ==>
      txs[i].id in d.graph.vertices || (txs[i].id in all && all[txs[i].id] == txs[i])
    ensures Inside(MergeLoop(d, txs, n).0.graph.vertices, all)
  {
    hide MergeOne, LoopKept, Inv, Inside, Passed;
    if n > 0 {
      LoopInside(d, b, unsettled, txs, all, n - 1);
      MergeLoopKeeps(d, b, unsettled, txs, n - 1);
      var (m, r) := MergeLoop(d, txs, n - 1);
      if r.Inserted? {
        LoopGrown(d, b, unsettled, m, r, Ids(txs[..n - 1]), n - 1);
        MergeOnePasses(m, txs[n - 1], r.count);
        InsideMore(m, txs[n - 1], r.count, MergeOne(m, txs[n - 1], r.count).0, MergeOne(m, txs[n - 1], r.count).1, all);
      }
    }
  }

  lemma InsideMore(m: Dag, tx: DagTransaction, count: nat, m': Dag, r: Merged, all: Vertices)
    requires Inside(m.graph.vertices, all) && Passed(m, tx, count, m', r)
    requires tx.id in m.graph.vertices || (tx.id in all && all[tx.id] == tx)
    ensures Inside(m'.graph.vertices, all)
  {}

  lemma LoopGrown(d: Dag, b: nat, unsettled: set<TxHash>, m: Dag, r: Merged, ids: set<TxHash>, n: nat)
    requires LoopKept(d, b, unsettled, m, r, ids, n)
    ensures Grown(m.graph) && d.graph.vertices.Keys <= m.graph.vertices.Keys
  {
    hide Grown, Settled;
  }

  lemma MergeKnown(m: Dag, txs: seq<DagTransaction>)
    requires Ids(txs) <= m.graph.vertices.Keys
    ensures MergeOrdered(m, txs) == (m, Inserted(0))
  {
    hide Rebuild;
    assert txs[..|txs|] == txs;
    KnownLoop(m, txs, |txs|);
  }

  lemma {:induction false} KnownLoop(m: Dag, txs: seq<DagTransaction>, n: nat)
    requires n <= |txs| && Ids(txs[..n]) <= m.graph.vertices.Keys
    ensures MergeLoop(m, txs, n) == (m, Inserted(0))
  {
    if n > 0 {
      IdsMore(txs, n - 1);
      KnownLoop(m, txs, n - 1);
    }
  }

  /** The ledger still accounts for every stored vertex after a merge exactly when the merge
      succeeded or stored nothing: a bad body after a good one leaves the good one unsettled. */
  lemma PartialMerge(d: Dag, b: nat, batch: seq<DagTransaction>)
    requires Inv(d, b, {}) && Allowed(d, MergeStep(batch))
    ensures var (m, r) := MergeOrdered(d, batch);
      Balanced(m) <==> r.Inserted? || m.graph.vertices.Keys == d.graph.vertices.Keys
  {
    hide Grown, Settled, MergeOrdered, Allowed;
    var b', unsettled' := MergeKeeps(d, b, {}, batch);
    var (m, r) := MergeOrdered(d, batch);
    CountsBalance(d, b, {});
    CountsBalance(m, b', unsettled');
    assert {} + Added(d, m) == Added(d, m);
    if !r.Inserted? { NothingAdded(d, m, r, Ids(batch), b', unsettled'); }
  }

  lemma NothingAdded(d: Dag, m: Dag, r: Merged, ids: set<TxHash>, b: nat, unsettled: set<TxHash>)
    requires Looped(d.(ledger := m.ledger, conflicts := m.conflicts), m, r, ids) && Inv(m, b, unsettled)
    requires unsettled == Added(d, m)
    ensures unsettled == {} <==> m.graph.vertices.Keys == d.graph.vertices.Keys
  {
    hide Inv, Grown;
    if unsettled == {} {
      forall x | x in m.graph.vertices ensures x in d.graph.vertices { assert x !in Added(d, m); }
    }
  }

  /** A spend followed by one whose signature does not verify: the merge fails, yet the first
      is stored and neither confirmed nor in conflict. */
  lemma PartialMergeShows() returns (genesis: DagTransaction, batch: seq<DagTransaction>)
    ensures ProtocolGenesis(genesis) && MergeOrdered(WithGenesis(genesis), batch).1 == AttachFailed(InvalidSignature)
    ensures var m := MergeOrdered(WithGenesis(genesis), batch).0;
      m.ledger.txCount + |m.conflicts| + 1 < |m.graph.vertices|
  {
    hide Insert, Grown, Rebuild;
    genesis := DagTransaction(1, 0, 0, 7, 7, 0, 0, 0, true, true, [], []);
    var good := DagTransaction(2, 1, 1, 8, 9, 5, 1_000, 0, true, true, [], []);
    var bad := DagTransaction(3, 1, 1, 8, 9, 5, 1_000, 1, true, false, [], []);
    batch := [good, bad];
    var d := WithGenesis(genesis);
    GenesisAttaches(genesis);
    GenesisGrown(genesis);
    GenesisFields(genesis);
    InsertExtends(d.graph, good);
    var m := d.(graph := Insert(d.graph, good));
    TwoSteps(d, good, bad, m, InvalidSignature);
    assert m.graph.vertices.Keys == {1, 2};
  }

  /** Nothing on the insert path looks at amounts: a merged vertex whose amount plus fee does
      not fit 64 bits stops the rebuild with an overflow, and the ledger is left half built. */
  lemma OverflowShows() returns (genesis: DagTransaction, batch: seq<DagTransaction>)
    ensures ProtocolGenesis(genesis) && MergeOrdered(WithGenesis(genesis), batch).1 == AttachFailed(DagError.Overflow)
    ensures MergeOrdered(WithGenesis(genesis), batch).0.graph.vertices.Keys != WithGenesis(genesis).graph.vertices.Keys
  {
    hide Insert, Grown, Losers;
    genesis := DagTransaction(1, 0, 0, 7, 7, 0, 0, 0, true, true, [], []);
    var big := DagTransaction(2, 1, 1, 8, 9, U64_MAX, 1_000, 0, true, true, [], []);
    batch := [big];
    var d := WithGenesis(genesis);
    GenesisAttaches(genesis);
    GenesisGrown(genesis);
    GenesisFields(genesis);
    InsertExtends(d.graph, big);
    var m := d.(graph := Insert(d.graph, big));
    assert MergeLoop(d, batch, 0) == (d, Inserted(0));
    assert MergeLoop(d, batch, 1) == (m, Inserted(1));
    LoneSpend(m, big);
    assert 2 in m.graph.vertices;
  }

  lemma LoneSpend(m: Dag, big: DagTransaction)
    requires m.graph.order == [1, 2] && m.graph.vertices.Keys == {1, 2} && m.graph.vertices[1].IsGenesis()
    requires m.graph.vertices[2] == big && !big.IsGenesis() && big.nonce == 0 && big.Cost() > U64_MAX
    ensures Rebuild(m).1 == Err(DagError.Overflow)
  {
    var vs, losers := m.graph.vertices, Losers(m.graph.vertices, m.graph.weights);
    assert 2 !in losers;
    hide Losers;
    assert Replay(vs, m.graph.order, losers, Baseline(m.faucet), 0) == Replayed(Baseline(m.faucet), [], false);
    assert Replay(vs, m.graph.order, losers, Baseline(m.faucet), 1) == Replayed(Baseline(m.faucet), [], false);
    assert Replay(vs, m.graph.order, losers, Baseline(m.faucet), 2).failed;
  }

  lemma TwoSteps(d: Dag, good: DagTransaction, bad: DagTransaction, m: Dag, error: DagError)
    requires MergeOne(d, good, 0) == (m, Inserted(1)) && MergeOne(m, bad, 1) == (m, AttachFailed(error))
    ensures MergeOrdered(d, [good, bad]) == (m, AttachFailed(error))
  {
    hide MergeOne, Rebuild;
    assert MergeLoop(d, [good, bad], 0) == (d, Inserted(0));
    assert MergeLoop(d, [good, bad], 1) == (m, Inserted(1));
  }
}
