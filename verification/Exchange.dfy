/** `exchange_and_merge` (src/dag/sync.rs): what one exchange, and one in each direction,
    make of two replicas. */
module Exchange {
  import opened Basics
  import opened Transactions
  import opened Graphs
  import opened Ancestry
  import opened Building
  import opened Weights
  import opened History
  import opened Dags
  import opened Settlement
  import opened Steps
  import opened Engine
  import opened Kahn
  import opened Reconciliation
  import opened MeshMerge

  /** What `exchange_and_merge` downloads: the bodies of what we need, as far as the remote
      stores them. */
  ghost function Downloaded(local: Vertices, remote: Vertices, inv: SyncInventory): Vertices {
    map h | h in remote && h in NeedSet(local, inv) :: remote[h]
  }

  method ExchangeAndMerge(local: KronDag, remote: KronDag, inv: SyncInventory) returns (r: Merged)
    requires local != remote && local.Valid() && remote.Valid()
    modifies local
    ensures local.Valid()
    ensures Merges(old(local.View()), Downloaded(old(local.vertices), remote.vertices, inv), local.View(), r)
  {
    hide Grown, NeedSet, Merges;
    var need := CollectNeed(local, inv);
    var bodies := CollectBodies(remote.vertices, need);
    RemoteIds(remote.GraphView());
    PickedAll(local.vertices, remote.vertices, inv, need);
    r := MergeOfflineGraphs(local, bodies);
  }

  /** The stored bodies of the first n of `need`. */
  ghost function Picked(remote: Vertices, need: seq<TxHash>, n: nat): seq<DagTransaction>
    requires n <= |need|
  {
    if n == 0 then []
    else Picked(remote, need, n - 1) + if need[n - 1] in remote then [remote[need[n - 1]]] else []
  }

  method CollectBodies(remote: Vertices, need: seq<TxHash>) returns (bodies: seq<DagTransaction>)
    ensures bodies == Picked(remote, need, |need|)
  {
    bodies := [];
    for i := 0 to |need|
      invariant bodies == Picked(remote, need, i)
    {
      if need[i] in remote {
        bodies := bodies + [remote[need[i]]];
      }
    }
  }

  /** Stored under their own non-null ids. */
  ghost predicate OwnIds(vs: Vertices) {
    forall h {:trigger vs[h]} :: h in vs ==> vs[h].id == h && h != NULL_PARENT
  }

  lemma RemoteIds(g: Graph)
    requires g == EMPTY || Grown(g)
    ensures OwnIds(g.vertices)
  {
    if g != EMPTY { GrownShaped(g); }
  }

  /** The part of `remote` under `ids`. */
  ghost function Part(remote: Vertices, ids: set<TxHash>): Vertices {
    map h | h in remote && h in ids :: remote[h]
  }

  lemma {:induction false} PickedBatch(remote: Vertices, need: seq<TxHash>, n: nat)
    requires OwnIds(remote) && n <= |need|
    ensures FirstById(Picked(remote, need, n)) == Part(remote, ToSet(need[..n]))
    ensures forall j :: 0 <= j < |Picked(remote, need, n)| ==> Picked(remote, need, n)[j].id != NULL_PARENT
  {
    hide FirstById, OwnIds, Part, ToSet;
    if n == 0 {
      NothingPicked(remote, need);
    } else {
      PickedBatch(remote, need, n - 1);
      PrefixMore(need, n - 1);
      PickedMore(remote, Picked(remote, need, n - 1), ToSet(need[..n - 1]), need[n - 1]);
    }
  }

  lemma NothingPicked(remote: Vertices, need: seq<TxHash>)
    ensures FirstById([]) == Part(remote, ToSet(need[..0]))
  {}

  lemma PickedMore(remote: Vertices, p: seq<DagTransaction>, ids: set<TxHash>, id: TxHash)
    requires OwnIds(remote) && FirstById(p) == Part(remote, ids)
    ensures FirstById(p + if id in remote then [remote[id]] else []) == Part(remote, ids + {id})
    ensures id in remote ==> remote[id].id != NULL_PARENT
  {
    if id in remote {
      var q := p + [remote[id]];
      assert q[..|q| - 1] == p;
    } else {
      assert p + [] == p;
    }
  }

  lemma PickedAll(local: Vertices, remote: Vertices, inv: SyncInventory, need: seq<TxHash>)
    requires OwnIds(remote) && need == Sorted(NeedSet(local, inv))
    ensures FirstById(Picked(remote, need, |need|)) == Downloaded(local, remote, inv)
    ensures forall j :: 0 <= j < |Picked(remote, need, |need|)| ==> Picked(remote, need, |need|)[j].id != NULL_PARENT
  {
    hide NeedSet, FirstById, Picked, OwnIds;
    PickedBatch(remote, need, |need|);
    assert need[..|need|] == need;
    assert Part(remote, NeedSet(local, inv)) == Downloaded(local, remote, inv);
  }

  // ----------------------------------------------------- what can be ordered

  lemma {:induction false} FilteredSequenced(batch: Vertices, local: set<TxHash>, remote: Graph, n: nat)
    requires Shaped(remote) && Inside(batch, remote.vertices) && n <= |remote.order|
    ensures Sequenced(batch, local, Filtered(remote.order, batch.Keys, n))
  {
    hide Deps, Sequenced, Shaped, ToSet, Inside;
    if n == 0 {
      NothingSequenced(batch, local);
    } else {
      FilteredSequenced(batch, local, remote, n - 1);
      var s, id := Filtered(remote.order, batch.Keys, n - 1), remote.order[n - 1];
      FilteredElements(remote.order, batch.Keys, n - 1);
      if id in batch {
        FilteredNext(batch, local, remote, n - 1);
        SequencedAppend(batch, local, s, id);
      } else {
        assert s + [] == s;
      }
    }
  }

  lemma NothingSequenced(batch: Vertices, local: set<TxHash>)
    ensures Sequenced(batch, local, [])
  {}

  lemma FilteredNext(batch: Vertices, local: set<TxHash>, remote: Graph, n: nat)
    requires Shaped(remote) && Inside(batch, remote.vertices) && n < |remote.order| && remote.order[n] in batch
    ensures Deps(batch, local, remote.order[n]) <= ToSet(remote.order[..n]) * batch.Keys
    ensures remote.order[n] !in ToSet(remote.order[..n])
  {
    assert FirstAt(remote.vertices, remote.order, n);
    ParentsListed(remote.vertices[remote.order[n]]);
  }

  lemma SequencedAppend(batch: Vertices, local: set<TxHash>, s: seq<TxHash>, id: TxHash)
    requires Sequenced(batch, local, s) && id in batch && id !in ToSet(s) && Deps(batch, local, id) <= ToSet(s)
    ensures Sequenced(batch, local, s + [id])
  {
    hide Deps;
    var t := s + [id];
    forall i | 0 <= i < |t| ensures t[i] in batch && Deps(batch, local, t[i]) <= ToSet(t[..i]) {
      assert t[..i] == s[..i];
      assert s[..|s|] == s;
    }
  }

  /** Whatever part of a replica is downloaded, it holds no cycle. */
  lemma NeverCyclic(batch: Vertices, local: set<TxHash>, remote: Graph)
    requires Grown(remote) && Inside(batch, remote.vertices)
    ensures !HasCycle(batch, local)
  {
    hide Grown, HasCycle, Sequenced, Shaped;
    GrownShaped(remote);
    GrownLined(remote);
    FilteredSequenced(batch, local, remote, |remote.order|);
    FilteredAll(remote.order, batch.Keys);
    SequencedAcyclic(batch, local, Filtered(remote.order, batch.Keys, |remote.order|));
  }

  /** So it can be ordered if and only if the parents of what is downloaded are stored or
      downloaded too. */
  lemma DownloadOrderable(batch: Vertices, local: set<TxHash>, remote: Graph)
    requires Grown(remote) && Inside(batch, remote.vertices)
    ensures Orderable(batch, local) <==> forall h, q :: h in batch && IsParent(batch[h], q) ==> q in local || q in batch
  {
    hide Grown, HasCycle;
    NeverCyclic(batch, local, remote);
    forall h | h in batch
      ensures forall q :: q in Parents(batch[h]) <==> IsParent(batch[h], q)
    {
      ParentsListed(batch[h]);
    }
    if h, q :| h in batch && IsParent(batch[h], q) && q !in local && q !in batch {
      assert q in Parents(batch[h]);
      assert Missing(batch, local, q);
    }
  }

  // ------------------------------------------------------------ one exchange

  /** What an inventory leaves out of what we lack. */
  ghost predicate Advertises(inv: SyncInventory, local: Vertices, remote: Vertices) {
    remote.Keys - local.Keys <= Advertised(inv)
  }

  /** The remote bodies of the vertices we lack. */
  ghost function Lacking(local: Vertices, remote: Vertices): Vertices {
    map h | h in remote && h !in local :: remote[h]
  }

  /** The download is what is advertised, stored there and not stored here; it is all we lack
      if and only if the inventory advertises all we lack. */
  lemma DownloadExact(local: Graph, remote: Graph, inv: SyncInventory)
    requires Grown(local) && Grown(remote)
    ensures var batch := Downloaded(local.vertices, remote.vertices, inv);
      && (forall h :: h in batch <==> h in remote.vertices && h in Advertised(inv) && h !in local.vertices)
      && Inside(batch, remote.vertices) && |batch| <= |remote.order|
      && (batch == Lacking(local.vertices, remote.vertices) <==> Advertises(inv, local.vertices, remote.vertices))
  {
    hide Grown, NeedSet, Advertised, Lacking, Advertises;
    NeedAdvertised(local, inv);
    RemoteIds(remote);
    GrownLined(remote);
    var batch := Downloaded(local.vertices, remote.vertices, inv);
    SubsetSmaller(batch.Keys, remote.vertices.Keys);
    AllDownloaded(local.vertices, remote.vertices, inv, batch);
  }

  lemma AllDownloaded(local: Vertices, remote: Vertices, inv: SyncInventory, batch: Vertices)
    requires Inside(batch, remote) && forall h :: h in batch <==> h in remote && h in Advertised(inv) && h !in local
    ensures batch == Lacking(local, remote) <==> Advertises(inv, local, remote)
  {
    hide Advertised;
    if batch == Lacking(local, remote) {
      forall h | h in remote && h !in local ensures h in Advertised(inv) { assert h in batch; }
    }
  }

  /** Every vertex of a replica is sound, unless it is the genesis. */
  lemma StoredSound(remote: Graph, h: TxHash)
    requires Grown(remote) && AllOffered(remote) && h in remote.vertices
    ensures var tx := remote.vertices[h];
      && tx.id == h && Offered(tx) && (h != remote.genesis ==> Insertable(tx))
      && (h == remote.genesis <==> tx.IsGenesis())
  {
    hide Grown;
    GrownShaped(remote);
    GrownLined(remote);
    var i := IndexOf(remote, h);
    StoredFee(remote, i);
    assert FirstAt(remote.vertices, remote.order, i) && LinedAt(remote.vertices, remote.order, i);
  }

  lemma BatchSound(a: Graph, remote: Graph, batch: Vertices)
    requires Grown(a) && Grown(remote) && AllOffered(remote) && a.genesis == remote.genesis
    requires Inside(batch, remote.vertices) && batch.Keys !! a.vertices.Keys
    ensures forall k :: k in batch ==> batch[k].id == k && Offered(batch[k])
    ensures forall k :: k in batch ==> Welcome(a.vertices.Keys, batch[k])
  {
    hide Grown, Insertable, Offered, AllOffered;
    GrownShaped(a);
    forall k | k in batch ensures batch[k].id == k && Offered(batch[k]) && Welcome(a.vertices.Keys, batch[k]) {
      StoredSound(remote, k);
    }
  }

  lemma MoreRoom(d: Dag, n: nat, more: nat)
    requires n <= more && Room(d.faucet, |d.graph.order| + more)
    ensures RoomFor(d, n)
  {}

  lemma Refused(d: Dag, batch: Vertices, m: Dag, r: Merged)
    requires Merges(d, batch, m, r) && !Orderable(batch, d.graph.vertices.Keys)
    requires !HasCycle(batch, d.graph.vertices.Keys)
    ensures m == d && r.MissingParent?
  {
    hide HasCycle;
  }

  /** What the exchange comes to: success if and only if the parents of everything downloaded
      are stored or downloaded. */
  lemma ExchangeExact(a: Dag, b: nat, unsettled: set<TxHash>, remote: Graph, inv: SyncInventory, m: Dag, r: Merged)
    requires Inv(a, b, unsettled) && Grown(remote) && AllOffered(remote) && a.graph.genesis == remote.genesis
    requires Room(a.faucet, |a.graph.order| + |remote.order|)
    requires Merges(a, Downloaded(a.graph.vertices, remote.vertices, inv), m, r)
    ensures var batch := Downloaded(a.graph.vertices, remote.vertices, inv);
      && !r.CyclicBatch? && !r.AttachFailed?
      && (r.Inserted? <==> forall h, q :: h in batch && IsParent(batch[h], q) ==> q in a.graph.vertices || q in batch)
      && (if r.Inserted? then MergedUnion(a, batch, m, r) else m == a)
  {
    hide Grown, AllOffered, Settled, NeedSet, Orderable, InsertOrder, MergeOrdered, MergedUnion;
    hide Downloaded, Inside, Welcome, Offered, Advertises, Lacking, IsParent;
    var batch := Downloaded(a.graph.vertices, remote.vertices, inv);
    DownloadExact(a.graph, remote, inv);
    BatchSound(a.graph, remote, batch);
    MoreRoom(a, |batch|, |remote.order|);
    BatchSucceeds(a, b, unsettled, batch, m, r);
    DownloadOrderable(batch, a.graph.vertices.Keys, remote);
    NeverCyclic(batch, a.graph.vertices.Keys, remote);
    if !Orderable(batch, a.graph.vertices.Keys) {
      Refused(a, batch, m, r);
    } else {
      OrderedIds(batch, a.graph.vertices.Keys);
      MergeIsUnion(a, b, unsettled, batch, m, r, InsertOrder(batch, a.graph.vertices.Keys));
    }
  }

  /** An exchange stores the union of the two replicas if and only if the inventory advertises
      everything the caller lacks; then it succeeds and settles the ledger. */
  lemma ExchangeIsUnion(a: Dag, b: nat, unsettled: set<TxHash>, remote: Graph, inv: SyncInventory, m: Dag, r: Merged)
    requires Inv(a, b, unsettled) && Grown(remote) && AllOffered(remote) && a.graph.genesis == remote.genesis
    requires Room(a.faucet, |a.graph.order| + |remote.order|)
    requires Merges(a, Downloaded(a.graph.vertices, remote.vertices, inv), m, r)
    ensures m.graph.vertices.Keys == a.graph.vertices.Keys + remote.vertices.Keys <==>
      Advertises(inv, a.graph.vertices, remote.vertices)
    ensures Advertises(inv, a.graph.vertices, remote.vertices) ==> MergedUnion(a, remote.vertices, m, r)
  {
    hide Grown, AllOffered, Settled, NeedSet, Merges, MergedUnion, Downloaded, Inside, Advertised;
    var batch := Downloaded(a.graph.vertices, remote.vertices, inv);
    DownloadExact(a.graph, remote, inv);
    ExchangeExact(a, b, unsettled, remote, inv, m, r);
    if Advertises(inv, a.graph.vertices, remote.vertices) {
      LackingPlaced(a.graph.vertices, remote);
      UnionWith(a, remote.vertices, m, r);
    } else {
      Short(a, batch, remote.vertices, inv, m, r);
    }
  }

  lemma LackingPlaced(local: Vertices, remote: Graph)
    requires Grown(remote)
    ensures forall h, q :: h in Lacking(local, remote.vertices) && IsParent(Lacking(local, remote.vertices)[h], q) ==>
      q in local || q in Lacking(local, remote.vertices)
  {
    hide Grown;
    GrownShaped(remote);
  }

  lemma UnionWith(a: Dag, remote: Vertices, m: Dag, r: Merged)
    requires MergedUnion(a, Lacking(a.graph.vertices, remote), m, r)
    ensures MergedUnion(a, remote, m, r) && m.graph.vertices.Keys == a.graph.vertices.Keys + remote.Keys
  {
    hide Inv;
    assert Lacking(a.graph.vertices, remote) + a.graph.vertices == remote + a.graph.vertices;
  }

  lemma Short(a: Dag, batch: Vertices, remote: Vertices, inv: SyncInventory, m: Dag, r: Merged)
    requires !Advertises(inv, a.graph.vertices, remote)
    requires forall h :: h in batch ==> h in Advertised(inv)
    requires if r.Inserted? then MergedUnion(a, batch, m, r) else m == a
    ensures m.graph.vertices.Keys != a.graph.vertices.Keys + remote.Keys
  {
    hide Inv, Advertised;
    var h :| h in remote && h !in a.graph.vertices && h !in Advertised(inv);
    assert h !in m.graph.vertices;
  }

  /** When the closures of the remote tips fit the walk bound, its own inventory advertises
      all of it to every replica with the same genesis. */
  lemma FittingAdvertises(local: Graph, remote: Graph, peer: Address)
    requires Grown(local) && Grown(remote) && local.genesis == remote.genesis && TipsFit(remote)
    ensures Advertises(InventoryOf(remote, peer), local.vertices, remote.vertices)
  {
    hide Grown, InventoryOf, Advertised, TipsFit;
    InventoryAdvertises(remote, peer);
    GrownLined(local);
  }

  /** Beyond the bound the exchange can fail: a replica that holds only the genesis asks a
      replica with a single tip and more than bound + 2 vertices, is told of bound + 1 of them,
      misses a parent and stores nothing. */
  lemma LongChainFails(a: Dag, b: nat, unsettled: set<TxHash>, remote: Graph, peer: Address, tip: TxHash,
                       m: Dag, r: Merged)
    requires Inv(a, b, unsettled) && Grown(remote) && AllOffered(remote) && a.graph.genesis == remote.genesis
    requires Room(a.faucet, |a.graph.order| + |remote.order|)
    requires a.graph.vertices.Keys == {a.graph.genesis} && remote.tips == {tip}
    requires |remote.order| > ANCESTOR_WALK_BOUND + 2
    requires Merges(a, Downloaded(a.graph.vertices, remote.vertices, InventoryOf(remote, peer)), m, r)
    ensures r.MissingParent? && m == a
  {
    hide Grown, AllOffered, Settled, NeedSet, Merges, MergedUnion, Downloaded, Inside, Advertised, InventoryOf, Lacking;
    var inv := InventoryOf(remote, peer);
    var batch := Downloaded(a.graph.vertices, remote.vertices, inv);
    DownloadExact(a.graph, remote, inv);
    ExchangeExact(a, b, unsettled, remote, inv, m, r);
    TipIsNew(remote, tip);
    OneTipAdvertises(remote, peer, tip);
    SubsetSmaller(batch.Keys, ParentClosureOf(remote.vertices, tip));
    ParentLeftOut(remote, tip, batch);
  }

  lemma TipIsNew(remote: Graph, tip: TxHash)
    requires Grown(remote) && remote.tips == {tip} && |remote.order| > 1
    ensures tip in remote.vertices && tip != remote.genesis
  {
    hide Grown;
    GrownShaped(remote);
    GrownLined(remote);
    assert FirstAt(remote.vertices, remote.order, 1);
    assert remote.order[1] in remote.vertices;
  }

  lemma OneTipAdvertises(remote: Graph, peer: Address, tip: TxHash)
    requires Grown(remote) && remote.tips == {tip}
    ensures tip in Advertised(InventoryOf(remote, peer))
    ensures Advertised(InventoryOf(remote, peer)) <= ParentClosureOf(remote.vertices, tip)
    ensures |ParentClosureOf(remote.vertices, tip)| <= ANCESTOR_WALK_BOUND + 1
  {
    hide Grown, ParentClosureOf;
    GrownShaped(remote);
    ParentClosureExact(remote.vertices, tip);
    ParentClosureHas(remote.vertices, tip);
  }

  lemma ParentClosureHas(vs: Vertices, tip: TxHash)
    requires Closed(vs) && tip in vs
    ensures tip in ParentClosureOf(vs, tip)
  {
    ClosureWalkKeeps(vs, BothParentsOf(vs, tip), {tip}, ANCESTOR_WALK_BOUND - 1);
    assert [] + BothParentsOf(vs, tip) == BothParentsOf(vs, tip) && {} + {tip} == {tip};
    ClosureStep(vs, [tip], {}, ANCESTOR_WALK_BOUND);
  }

  lemma {:induction false} ClosureWalkKeeps(vs: Vertices, stack: seq<TxHash>, done: set<TxHash>, room: nat)
    ensures done <= ClosureWalk(vs, stack, done, room)
    decreases room, |stack|
  {
    hide BothParentsOf;
    if stack != [] {
      var h, rest := stack[|stack| - 1], stack[..|stack| - 1];
      if h in done {
        ClosureWalkKeeps(vs, rest, done, room);
      } else if room > 0 {
        ClosureWalkKeeps(vs, rest + BothParentsOf(vs, h), done + {h}, room - 1);
      }
    }
  }

  /** A set with the tip in it that is too small for all that lies below lacks a parent. */
  lemma ParentLeftOut(remote: Graph, tip: TxHash, batch: Vertices)
    requires Grown(remote) && remote.tips == {tip} && Inside(batch, remote.vertices) && tip in batch
    requires |batch| + 1 < |remote.order|
    ensures exists h, q :: h in batch && IsParent(batch[h], q) && q != remote.genesis && q !in batch
  {
    hide Grown, Closure, TipsOk, ChildrenOk, ParentsFirst, Inside;
    GrownShaped(remote);
    GrownLined(remote);
    var s := batch.Keys + {remote.genesis};
    if forall h, q :: h in batch && IsParent(batch[h], q) ==> q in s {
      GenesisParentless(remote);
      ClosedWithGenesis(remote, batch);
      AllBelow(remote, tip, s);
      SubsetSmaller(remote.vertices.Keys, s);
    }
  }

  lemma GenesisParentless(g: Graph)
    requires Shaped(g) && g.genesis in g.vertices
    ensures forall q :: !IsParent(g.vertices[g.genesis], q)
  {
    assert g.genesis in ToSet(g.order);
    assert FirstAt(g.vertices, g.order, 0);
  }

  lemma ClosedWithGenesis(g: Graph, batch: Vertices)
    requires Inside(batch, g.vertices) && g.genesis in g.vertices && forall q :: !IsParent(g.vertices[g.genesis], q)
    requires forall h, q :: h in batch && IsParent(batch[h], q) ==> q in batch.Keys + {g.genesis}
    ensures ParentClosed(g.vertices, batch.Keys + {g.genesis})
  {}

  lemma AllBelow(g: Graph, tip: TxHash, s: set<TxHash>)
    requires Shaped(g) && OrderOk(g) && g.tips == {tip} && tip in s && ParentClosed(g.vertices, s)
    ensures g.vertices.Keys <= s
  {
    hide Shaped, Closure, ParentClosed;
    ClosureLeast(g.vertices, tip, s);
    forall v | v in g.vertices ensures v in s {
      var i := IndexOf(g, v);
      var t := TipAbove(g, i);
    }
  }

  // --------------------------------------------------------- both directions

  lemma SameParentsOf(tx: DagTransaction, u: DagTransaction)
    requires tx.parent1 == u.parent1 && tx.parent2 == u.parent2
    ensures forall q :: IsParent(tx, q) <==> IsParent(u, q)
  {}

  /** Where a smaller replica agrees on the parents, its closures are those of the larger. */
  lemma ClosureSame(vs: Vertices, ws: Vertices, t: TxHash)
    requires Closed(vs) && SameParents(vs, ws) && vs.Keys <= ws.Keys && t in vs
    ensures Closure(ws, t) <= Closure(vs, t)
  {
    hide IsParent, Closed;
    ClosureIsClosed(vs, t);
    var s := Closure(vs, t);
    forall h, q | h in s && h in ws && IsParent(ws[h], q) ensures q in s { SameParentsOf(vs[h], ws[h]); }
    ClosureLeast(ws, t, s);
  }

  /** A tip of the larger replica that the smaller one stores is a tip there too. */
  lemma TipThere(vs: Graph, ws: Graph, t: TxHash)
    requires Shaped(vs) && Shaped(ws) && SameParents(vs.vertices, ws.vertices) && vs.vertices.Keys <= ws.vertices.Keys
    requires t in ws.tips && t in vs.vertices
    ensures t in vs.tips
  {
    hide IsParent;
    forall c | c in ChildrenOf(vs.vertices, t) ensures c in ChildrenOf(ws.vertices, t) {
      SameParentsOf(vs.vertices[c], ws.vertices[c]);
    }
    assert ChildrenOf(ws.vertices, t) == {};
  }

  lemma TipFits(vs: Graph, ws: Graph, t: TxHash)
    requires Shaped(vs) && Shaped(ws) && SameParents(vs.vertices, ws.vertices) && vs.vertices.Keys <= ws.vertices.Keys
    requires TipsFit(vs) && t in ws.tips && t in vs.vertices
    ensures |Closure(ws.vertices, t)| <= ANCESTOR_WALK_BOUND + 1
  {
    hide Closure, SameParents;
    TipThere(vs, ws, t);
    ClosureSame(vs.vertices, ws.vertices, t);
    SubsetSmaller(Closure(ws.vertices, t), Closure(vs.vertices, t));
  }

  /** The union of two replicas whose tip closures fit the walk bound fits it too: each of its
      tips is a tip of one of them, with the same closure. */
  lemma UnionFits(g: Graph, a: Graph, c: Graph)
    requires Grown(g) && Grown(a) && Grown(c) && g.vertices == c.vertices + a.vertices
    requires SameParents(a.vertices, c.vertices) && TipsFit(a) && TipsFit(c)
    ensures TipsFit(g)
  {
    hide Grown, Shaped, TipsFit, Closure;
    GrownShaped(g);
    GrownShaped(a);
    GrownShaped(c);
    TipsStored(g);
    forall t | t in g.tips ensures |Closure(g.vertices, t)| <= ANCESTOR_WALK_BOUND + 1 {
      if t in a.vertices { TipFits(a, g, t); } else { TipFits(c, g, t); }
    }
    AllFit(g);
  }

  lemma TipsStored(g: Graph)
    requires Shaped(g)
    ensures g.tips <= g.vertices.Keys
  {}

  lemma AllFit(g: Graph)
    requires forall t :: t in g.tips ==> |Closure(g.vertices, t)| <= ANCESTOR_WALK_BOUND + 1
    ensures TipsFit(g)
  {}

  lemma UnionSize(g: Graph, a: Graph, c: Graph)
    requires Grown(g) && Grown(a) && Grown(c) && g.vertices.Keys == a.vertices.Keys + c.vertices.Keys
    ensures |g.order| <= |a.order| + |c.order|
  {
    hide Grown;
    GrownShaped(g);
    GrownShaped(a);
    GrownShaped(c);
    SubsetSmaller(g.vertices.Keys - a.vertices.Keys, c.vertices.Keys);
  }

  lemma MergedGrown(d: Dag, batch: Vertices, m: Dag, r: Merged)
    requires MergedUnion(d, batch, m, r)
    ensures Grown(m.graph) && AllOffered(m.graph) && m.graph.vertices == batch + d.graph.vertices
    ensures m.graph.genesis == d.graph.genesis
  {
    hide Grown, Settled;
  }

  /** After an exchange in one direction and then in the other, between replicas whose tip
      closures fit the walk bound, both store everything either of them had; they store the
      same bodies if they agreed on the ones they shared. */
  lemma ExchangeBothWays(a: Dag, b: nat, u: set<TxHash>, c: Dag, e: nat, w: set<TxHash>,
                         m: Dag, r: Merged, n: Dag, q: Merged, p: Address, p': Address)
    requires Inv(a, b, u) && Inv(c, e, w) && a.graph.genesis == c.graph.genesis
    requires SameParents(a.graph.vertices, c.graph.vertices) && TipsFit(a.graph) && TipsFit(c.graph)
    requires Room(a.faucet, |a.graph.order| + |c.graph.order|) && Room(c.faucet, |a.graph.order| + 2 * |c.graph.order|)
    requires Merges(a, Downloaded(a.graph.vertices, c.graph.vertices, InventoryOf(c.graph, p)), m, r)
    requires Merges(c, Downloaded(c.graph.vertices, m.graph.vertices, InventoryOf(m.graph, p')), n, q)
    ensures r.Inserted? && q.Inserted?
    ensures m.graph.vertices == c.graph.vertices + a.graph.vertices
    ensures n.graph.vertices == m.graph.vertices + c.graph.vertices
    ensures m.graph.vertices.Keys == n.graph.vertices.Keys == a.graph.vertices.Keys + c.graph.vertices.Keys
    ensures Agree(a.graph.vertices, c.graph.vertices) ==> m.graph.vertices == n.graph.vertices
  {
    hide Grown, AllOffered, Settled, Downloaded, InventoryOf, TipsFit, Advertises, SameParents, Merges, MergedUnion;
    FittingAdvertises(a.graph, c.graph, p);
    ExchangeIsUnion(a, b, u, c.graph, InventoryOf(c.graph, p), m, r);
    MergedGrown(a, c.graph.vertices, m, r);
    UnionSize(m.graph, a.graph, c.graph);
    UnionFits(m.graph, a.graph, c.graph);
    FittingAdvertises(c.graph, m.graph, p');
    RoomLess(c, |c.graph.order| + |m.graph.order|, |a.graph.order| + 2 * |c.graph.order|);
    ExchangeIsUnion(c, e, w, m.graph, InventoryOf(m.graph, p'), n, q);
    MergedGrown(c, m.graph.vertices, n, q);
    Succeeded(a, c.graph.vertices, m, r);
    Succeeded(c, m.graph.vertices, n, q);
  }

  /** Two nodes agree on what both store. */
  ghost predicate Agree(a: Vertices, b: Vertices) {
    forall h {:trigger a[h]} {:trigger b[h]} :: h in a && h in b ==> a[h] == b[h]
  }

  lemma Succeeded(d: Dag, batch: Vertices, m: Dag, r: Merged)
    requires MergedUnion(d, batch, m, r)
    ensures r.Inserted?
  {}

  lemma RoomLess(d: Dag, n: nat, more: nat)
    requires n <= more && Room(d.faucet, more)
    ensures Room(d.faucet, n)
  {}
}
