/** src/dag/reconciliation.rs: inventories and the Have/Need difference of two replicas. */
module Reconciliation {
  import opened Basics
  import opened Graphs
  import opened Ancestry
  import opened Building
  import opened Weights
  import opened Engine

  datatype SyncInventory = SyncInventory(tips: seq<TxHash>, recent: seq<TxHash>, peerId: Option<Address>)

  function Advertised(inv: SyncInventory): set<TxHash> {
    ToSet(inv.tips) + ToSet(inv.recent)
  }

  /** What `parent_closure` reports over all tips, genesis aside. */
  function Recent(g: Graph, tips: set<TxHash>): set<TxHash> {
    set t, h | t in tips && h in ParentClosureOf(g.vertices, t) && h != g.genesis && h != NULL_PARENT :: h
  }

  function InventoryOf(g: Graph, peer: Address): SyncInventory {
    SyncInventory(Sorted(g.tips), Sorted(Recent(g, g.tips)), Some(peer))
  }

  /** Every tip's closure is within what `parent_closure` reports in full. */
  ghost predicate TipsFit(g: Graph) {
    forall t :: t in g.tips ==> |Closure(g.vertices, t)| <= ANCESTOR_WALK_BOUND + 1
  }

  // ------------------------------------------------------------- the queries

  /** Remote hashes we lack, and holes right under remote tips we store. */
  ghost function NeedSet(vs: Vertices, remote: SyncInventory): set<TxHash> {
    (set h | h in Advertised(remote) && h != NULL_PARENT && h !in vs)
    + (set t, q | t in ToSet(remote.tips) && t != NULL_PARENT && t in vs
                  && q in {vs[t].parent1, vs[t].parent2} && q != NULL_PARENT && q !in vs :: q)
  }

  /** The stored vertices a have-walk may enter: neither advertised nor genesis. */
  ghost function Open(g: Graph, advertised: set<TxHash>): Vertices {
    map h | h in g.vertices && h !in advertised && h != g.genesis :: g.vertices[h]
  }

  /** Open vertices reachable from an open tip over open vertices. */
  ghost function HaveSet(g: Graph, advertised: set<TxHash>): set<TxHash> {
    var open := Open(g, advertised);
    set v | v in open && exists t :: t in g.tips && t in open && Reaches(open, t, v)
  }

  method FromDag(dag: KronDag, peer: Address) returns (inv: SyncInventory)
    ensures inv == InventoryOf(dag.GraphView(), peer)
  {
    ghost var g := dag.GraphView();
    var genesis := dag.GenesisId();
    var seen: set<TxHash> := {};
    var todo := dag.tips;
    while todo != {}
      invariant todo <= dag.tips && seen == Recent(g, dag.tips - todo)
      decreases todo
    {
      var tip :| tip in todo;
      var closure := dag.ParentClosure(tip);
      RecentMore(g, dag.tips - todo, tip);
      assert dag.tips - (todo - {tip}) == dag.tips - todo + {tip};
      todo := todo - {tip};
      seen := seen + set h | h in closure && h != genesis && h != NULL_PARENT;
    }
    assert dag.tips - {} == dag.tips;
    inv := SyncInventory(Sorted(dag.tips), Sorted(seen), Some(peer));
  }

  lemma RecentMore(g: Graph, tips: set<TxHash>, t: TxHash)
    ensures Recent(g, tips + {t})
         == Recent(g, tips) + set h | h in ParentClosureOf(g.vertices, t) && h != g.genesis && h != NULL_PARENT
  {
    hide ParentClosureOf;
  }

  method CollectNeed(local: KronDag, remote: SyncInventory) returns (out: seq<TxHash>)
    ensures out == Sorted(NeedSet(local.vertices, remote))
  {
    var vs, genesis := local.vertices, local.GenesisId();
    var need: set<TxHash> := {};
    for i := 0 to |remote.tips|
      invariant need == NeedSet(vs, SyncInventory(remote.tips[..i], [], None))
    {
      var tip := remote.tips[i];
      NeedTip(vs, remote.tips, i);
      if tip == NULL_PARENT {
        continue;
      }
      if tip in vs {
        need := need + HolesUnder(vs, tip);
        continue;
      }
      if tip == genesis && genesis in vs {
        continue;
      }
      need := need + {tip};
    }
    assert remote.tips[..|remote.tips|] == remote.tips;
    for i := 0 to |remote.recent|
      invariant need == NeedSet(vs, SyncInventory(remote.tips, remote.recent[..i], None))
    {
      var h := remote.recent[i];
      assert remote.recent[..i + 1] == remote.recent[..i] + [h];
      if h == NULL_PARENT || h in vs || (h == genesis && genesis in vs) {
        continue;
      }
      need := need + {h};
    }
    assert remote.recent[..|remote.recent|] == remote.recent;
    out := Sorted(need);
  }

  function HolesUnder(vs: Vertices, tip: TxHash): set<TxHash>
    requires tip in vs
  {
    set q | q in {vs[tip].parent1, vs[tip].parent2} && q != NULL_PARENT && q !in vs
  }

  lemma NeedTip(vs: Vertices, tips: seq<TxHash>, i: nat)
    requires i < |tips|
    ensures NeedSet(vs, SyncInventory(tips[..i + 1], [], None)) == NeedSet(vs, SyncInventory(tips[..i], [], None))
      + (if tips[i] == NULL_PARENT then {} else if tips[i] in vs then HolesUnder(vs, tips[i]) else {tips[i]})
  {
    assert tips[..i + 1] == tips[..i] + [tips[i]];
  }

  // -------------------------------------------------------------------- have

  /** Over open vertices, a set that holds an open tip and is closed under open parents
      holds everything reachable from it. */
  lemma {:induction false} OpenPathStays(open: Vertices, have: set<TxHash>, p: seq<TxHash>, k: nat)
    requires IsPath(open, p) && p[0] in have && p[|p| - 1] in open && k < |p|
    requires forall h, q :: h in have && h in open && IsParent(open[h], q) && q in open ==> q in have
    ensures p[k] in have
  {
    if k > 0 {
      OpenPathStays(open, have, p, k - 1);
      assert StepsAt(open, p, k - 1);
      assert k < |p| - 1 ==> StepsAt(open, p, k);
    }
  }

  /** Visited so far: seen open vertices are collected, and their open parents are collected
      or on the stack. */
  ghost predicate Collecting(open: Vertices, stack: seq<TxHash>, seen: set<TxHash>, have: set<TxHash>) {
    && have == seen * open.Keys
    && forall h, q :: h in have && h in open && IsParent(open[h], q) ==> q in seen || q in stack
  }

  /** Everything collected or waiting is reachable from some open tip. */
  ghost predicate Reachable(g: Graph, open: Vertices, s: set<TxHash>) {
    forall v :: v in s && v in open ==> exists t :: t in g.tips && t in open && Reaches(open, t, v)
  }

  method CollectHave(local: KronDag, advertised: set<TxHash>) returns (out: seq<TxHash>)
    requires Grown(local.GraphView())
    ensures out == Sorted(HaveSet(local.GraphView(), advertised))
  {
    hide Grown, Shaped, HaveSet, Collecting, Reachable;
    ghost var g := local.GraphView();
    ghost var open := Open(g, advertised);
    HaveFacts(g);
    var genesis := local.GenesisId();
    var have: set<TxHash> := {};
    var seen: set<TxHash> := {};
    var todo := local.tips;
    CollectStart(g, open);
    while todo != {}
      invariant todo <= local.tips && seen <= local.vertices.Keys
      invariant Collecting(open, [], seen, have) && Reachable(g, open, seen) && local.tips - todo <= seen
      decreases todo
    {
      var tip :| tip in todo;
      todo := todo - {tip};
      var stack := [tip];
      CollectTip(g, open, seen, have, tip);
      while stack != []
        invariant ToSet(stack) + seen <= local.vertices.Keys && local.tips - todo <= seen + ToSet(stack)
        invariant Collecting(open, stack, seen, have) && Reachable(g, open, seen + ToSet(stack))
        decreases local.vertices.Keys - seen, |stack|
      {
        var h := stack[|stack| - 1];
        ghost var seen0, have0, rest := seen, have, stack[..|stack| - 1];
        assert stack == rest + [h];
        assert h in ToSet(stack);
        CollectPop(g, open, rest, h, seen, have);
        stack := stack[..|stack| - 1];
        if h in seen {
          continue;
        }
        seen := seen + {h};
        if h == NULL_PARENT || h == genesis || h in advertised || h !in local.vertices {
          continue;
        }
        have := have + {h};
        CollectPush(g, open, stack, h, seen0, have0);
        if h in local.vertices {
          stack := local.PushParents(stack, local.vertices[h]);
        }
      }
      assert seen + ToSet<TxHash>([]) == seen;
    }
    CollectDone(g, advertised, seen, have);
    out := Sorted(have);
  }

  lemma HaveFacts(g: Graph)
    requires Grown(g)
    ensures Closed(g.vertices) && g.tips <= g.vertices.Keys && g.genesis in g.vertices
  {
    GrownShaped(g);
  }

  lemma CollectStart(g: Graph, open: Vertices)
    ensures Collecting(open, [], {}, {}) && Reachable(g, open, {})
  {}

  lemma CollectTip(g: Graph, open: Vertices, seen: set<TxHash>, have: set<TxHash>, tip: TxHash)
    requires Collecting(open, [], seen, have) && Reachable(g, open, seen) && tip in g.tips
    ensures Collecting(open, [tip], seen, have) && Reachable(g, open, seen + ToSet([tip]))
  {
    ReachesSelf(open, tip);
  }

  /** Dropping the top is safe once it is seen, and seeing a closed vertex collects nothing. */
  lemma CollectPop(g: Graph, open: Vertices, rest: seq<TxHash>, h: TxHash, seen: set<TxHash>, have: set<TxHash>)
    requires Collecting(open, rest + [h], seen, have) && Reachable(g, open, seen + ToSet(rest + [h]))
    ensures h in seen || h !in open ==> Collecting(open, rest, seen + {h}, have)
    ensures Reachable(g, open, seen + {h} + ToSet(rest)) && ToSet(rest + [h]) == ToSet(rest) + {h}
    ensures h in seen ==> seen + {h} == seen
  {
    assert ToSet(rest + [h]) == ToSet(rest) + {h};
    assert seen + ToSet(rest + [h]) == seen + {h} + ToSet(rest);
    hide Reachable;
    if h in seen || h !in open { PopCollected(open, rest, h, seen, have); }
  }

  lemma PopCollected(open: Vertices, rest: seq<TxHash>, h: TxHash, seen: set<TxHash>, have: set<TxHash>)
    requires Collecting(open, rest + [h], seen, have) && (h in seen || h !in open)
    ensures Collecting(open, rest, seen + {h}, have)
  {
    hide IsParent;
    assert (seen + {h}) * open.Keys == seen * open.Keys;
    assert forall q :: q in rest + [h] <==> q in rest || q == h;
  }

  lemma CollectPush(g: Graph, open: Vertices, rest: seq<TxHash>, h: TxHash, seen: set<TxHash>, have: set<TxHash>)
    requires h in open && h !in seen && h in g.vertices && open[h] == g.vertices[h] && Closed(g.vertices)
    requires Collecting(open, rest + [h], seen, have) && Reachable(g, open, seen + {h} + ToSet(rest))
    ensures Collecting(open, rest + Parents(g.vertices[h]), seen + {h}, have + {h})
    ensures Reachable(g, open, seen + {h} + ToSet(rest + Parents(g.vertices[h])))
    ensures ToSet(rest + Parents(g.vertices[h])) <= ToSet(rest) + g.vertices.Keys
  {
    var tx := g.vertices[h];
    ParentsListed(tx);
    assert forall v :: v in Parents(tx) ==> v in g.vertices;
    assert have + {h} == (seen + {h}) * open.Keys;
    forall d, q | d in have + {h} && d in open && IsParent(open[d], q)
      ensures q in seen + {h} || q in rest + Parents(tx)
    {
      if d == h { assert q in Parents(tx); } else { assert q in seen || q in rest + [h]; }
    }
    var t :| t in g.tips && t in open && Reaches(open, t, h);
    forall v | v in Parents(tx) && v in open ensures Reaches(open, t, v) { ReachesThen(open, t, h, v); }
    assert forall v :: v in rest + Parents(tx) ==> v in ToSet(rest) || v in Parents(tx);
  }

  lemma CollectDone(g: Graph, advertised: set<TxHash>, seen: set<TxHash>, have: set<TxHash>)
    requires Collecting(Open(g, advertised), [], seen, have) && Reachable(g, Open(g, advertised), seen)
    requires g.tips <= seen
    ensures have == HaveSet(g, advertised)
  {
    CollectSound(g, advertised, seen, have);
    CollectComplete(g, advertised, seen, have);
  }

  lemma CollectSound(g: Graph, advertised: set<TxHash>, seen: set<TxHash>, have: set<TxHash>)
    requires have == seen * Open(g, advertised).Keys && Reachable(g, Open(g, advertised), seen)
    ensures have <= HaveSet(g, advertised)
  {
    hide Open, Reaches;
  }

  lemma CollectComplete(g: Graph, advertised: set<TxHash>, seen: set<TxHash>, have: set<TxHash>)
    requires Collecting(Open(g, advertised), [], seen, have) && g.tips <= seen
    ensures HaveSet(g, advertised) <= have
  {
    hide Open, Reaches, IsParent;
    var open := Open(g, advertised);
    forall v | v in HaveSet(g, advertised) ensures v in have {
      var t :| t in g.tips && t in open && Reaches(open, t, v);
      OpenStays(open, have, t, v);
    }
  }

  lemma OpenStays(open: Vertices, have: set<TxHash>, t: TxHash, v: TxHash)
    requires t in have && v in open && Reaches(open, t, v)
    requires forall h, q :: h in have && h in open && IsParent(open[h], q) && q in open ==> q in have
    ensures v in have
  {
    var p :| IsPath(open, p) && p[0] == t && p[|p| - 1] == v;
    OpenPathStays(open, have, p, |p| - 1);
  }

  // --------------------------------------------------------------- exactness

  /** Replicas that store the same vertex agree on its parents. */
  ghost predicate SameParents(vs: Vertices, ws: Vertices) {
    forall h :: h in vs && h in ws ==> vs[h].parent1 == ws[h].parent1 && vs[h].parent2 == ws[h].parent2
  }

  lemma RecentStored(g: Graph)
    requires Shaped(g)
    ensures Recent(g, g.tips) <= g.vertices.Keys - {g.genesis}
    ensures TipsFit(g) ==> forall t, v :: t in g.tips && v in Closure(g.vertices, t) && v != g.genesis ==>
      v in Recent(g, g.tips)
  {
    hide ParentClosureOf, Closure;
    forall t | t in g.tips
      ensures ParentClosureOf(g.vertices, t) <= Closure(g.vertices, t) <= g.vertices.Keys
      ensures NULL_PARENT !in Closure(g.vertices, t)
      ensures TipsFit(g) ==> ParentClosureOf(g.vertices, t) == Closure(g.vertices, t)
    {
      ParentClosureExact(g.vertices, t);
      ClosureStored(g.vertices, t);
    }
  }

  /** The closures of the tips cover every stored vertex. */
  lemma TipsCover(g: Graph, seen: set<TxHash>)
    requires Shaped(g) && seen <= g.vertices.Keys - {g.genesis}
    requires forall t, v :: t in g.tips && v in Closure(g.vertices, t) && v != g.genesis ==> v in seen
    ensures seen == g.vertices.Keys - {g.genesis}
  {
    hide Closure;
    forall v | v in g.vertices && v != g.genesis ensures v in seen {
      var i := IndexOf(g, v);
      var t := TipAbove(g, i);
    }
  }

  /** Nothing that is not stored is advertised, and everything but genesis is once the tip
      closures fit the walk bound. */
  lemma InventoryAdvertises(g: Graph, peer: Address)
    requires Grown(g)
    ensures Advertised(InventoryOf(g, peer)) <= g.vertices.Keys
    ensures TipsFit(g) ==> g.vertices.Keys - {g.genesis} <= Advertised(InventoryOf(g, peer))
  {
    hide Grown, TipsFit, Recent, Closure, Closed;
    GrownShaped(g);
    RecentStored(g);
    if TipsFit(g) { TipsCover(g, Recent(g, g.tips)); }
  }

  /** Field by field: the tips in order, the peer's id, and vertices other than genesis in order,
      every other tip among them and all of them once the tip closures fit. */
  lemma InventoryExact(g: Graph, peer: Address)
    requires Grown(g)
    ensures var inv := InventoryOf(g, peer);
      && Increasing(inv.tips) && ToSet(inv.tips) == g.tips && inv.peerId == Some(peer)
      && Increasing(inv.recent) && g.tips - {g.genesis} <= ToSet(inv.recent) <= g.vertices.Keys - {g.genesis}
      && (TipsFit(g) ==> ToSet(inv.recent) == g.vertices.Keys - {g.genesis})
  {
    hide Grown, TipsFit, Closure, Closed, Sorted, Increasing;
    GrownShaped(g);
    RecentStored(g);
    if TipsFit(g) { TipsCover(g, Recent(g, g.tips)); }
    forall t | t in g.tips && t != g.genesis ensures t in Recent(g, g.tips) { TipRecent(g, t); }
  }

  lemma TipRecent(g: Graph, t: TxHash)
    requires Shaped(g) && t in g.tips
    ensures t in ParentClosureOf(g.vertices, t) && t != NULL_PARENT
  {
    ClosureStored(g.vertices, t);
    ReachesSelf(g.vertices, t);
    OwnClosure(g.vertices, t);
  }

  lemma OwnClosure(vs: Vertices, id: TxHash)
    ensures id in ParentClosureOf(vs, id)
  {
    ClosureWalkKeeps(vs, BothParentsOf(vs, id), {id}, ANCESTOR_WALK_BOUND - 1);
    var next, seen := [id][..0] + BothParentsOf(vs, id), {} + {id};
    assert next == BothParentsOf(vs, id) && seen == {id};
    assert ParentClosureOf(vs, id) == ClosureWalk(vs, next, seen, ANCESTOR_WALK_BOUND - 1);
  }

  lemma {:induction false} ClosureWalkKeeps(vs: Vertices, stack: seq<TxHash>, done: set<TxHash>, room: nat)
    ensures done <= ClosureWalk(vs, stack, done, room)
    decreases room, |stack|
  {
    if stack != [] {
      var h, rest := stack[|stack| - 1], stack[..|stack| - 1];
      if h in done {
        ClosureWalkKeeps(vs, rest, done, room);
      } else if room > 0 {
        ClosureWalkKeeps(vs, rest + BothParentsOf(vs, h), done + {h}, room - 1);
      }
    }
  }

  /** No needed hash is stored, and each is advertised: a stored tip has its parents stored. */
  lemma NeedAdvertised(local: Graph, inv: SyncInventory)
    requires Grown(local)
    ensures forall h :: h in NeedSet(local.vertices, inv) <==>
      h in Advertised(inv) && h != NULL_PARENT && h !in local.vertices
  {
    hide Grown;
    GrownShaped(local);
  }

  /** Need is exactly what the remote stores and we lack. */
  lemma NeedExact(local: Graph, remote: Graph, peer: Address)
    requires Grown(local) && Grown(remote) && local.genesis == remote.genesis && TipsFit(remote)
    ensures NeedSet(local.vertices, InventoryOf(remote, peer)) == remote.vertices.Keys - local.vertices.Keys
  {
    hide Grown, Shaped, InventoryOf, TipsFit;
    GrownShaped(local);
    GrownShaped(remote);
    InventoryAdvertises(remote, peer);
    NoHoles(local, remote, peer);
    NullNotStored(remote);
  }

  lemma NullNotStored(g: Graph)
    requires Grown(g)
    ensures NULL_PARENT !in g.vertices
  {
    GrownShaped(g);
  }

  lemma NoHoles(local: Graph, remote: Graph, peer: Address)
    requires Grown(local)
    ensures forall t, q :: (t in ToSet(InventoryOf(remote, peer).tips) && t in local.vertices
                            && q in {local.vertices[t].parent1, local.vertices[t].parent2}
                            && q != NULL_PARENT) ==> q in local.vertices
  {
    GrownShaped(local);
  }

  /** Have never misses what we store and the remote lacks, however little the remote advertises:
      a walk that stops at advertised hashes still reaches all of it, because what lies below an
      advertised hash is shared. */
  lemma HaveCovers(local: Graph, remote: Graph, peer: Address)
    requires Grown(local) && Grown(remote) && local.genesis == remote.genesis
    requires SameParents(local.vertices, remote.vertices)
    ensures local.vertices.Keys - remote.vertices.Keys <= HaveSet(local, Advertised(InventoryOf(remote, peer)))
  {
    hide Grown, Shaped, InventoryOf, Advertised, HaveSet;
    GrownShaped(local);
    GrownShaped(remote);
    InventoryAdvertises(remote, peer);
    var advertised := Advertised(InventoryOf(remote, peer));
    var have := HaveSet(local, advertised);
    HaveIsOpen(local, advertised);
    HaveFacts(local);
    var s := have + remote.vertices.Keys;
    forall h, q | h in s && h in local.vertices && IsParent(local.vertices[h], q) ensures q in s {
      if h in remote.vertices { RemoteParents(local, remote, h, q); }
      else { HaveParents(local, advertised, h, q); }
    }
    forall v | v in local.vertices && v !in remote.vertices ensures v in have {
      var i := IndexOf(local, v);
      var t := TipAbove(local, i);
      assert t in s;
      ClosureLeast(local.vertices, t, s);
    }
  }

  /** Have is exactly what we store and the remote lacks. */
  lemma HaveExact(local: Graph, remote: Graph, peer: Address)
    requires Grown(local) && Grown(remote) && local.genesis == remote.genesis && TipsFit(remote)
    requires SameParents(local.vertices, remote.vertices)
    ensures HaveSet(local, Advertised(InventoryOf(remote, peer))) == local.vertices.Keys - remote.vertices.Keys
  {
    hide Grown, InventoryOf, Advertised, HaveSet, TipsFit;
    HaveCovers(local, remote, peer);
    InventoryAdvertises(remote, peer);
    HaveIsOpen(local, Advertised(InventoryOf(remote, peer)));
  }

  lemma RemoteParents(local: Graph, remote: Graph, h: TxHash, q: TxHash)
    requires Grown(remote) && SameParents(local.vertices, remote.vertices)
    requires h in local.vertices && h in remote.vertices && IsParent(local.vertices[h], q)
    ensures q in remote.vertices
  {
    GrownShaped(remote);
  }

  /** Tips enter the have-set when open, and it holds nothing but open vertices. */
  lemma HaveIsOpen(g: Graph, advertised: set<TxHash>)
    ensures HaveSet(g, advertised) <= g.vertices.Keys - advertised - {g.genesis}
    ensures forall t :: t in g.tips && t in g.vertices && t !in advertised && t != g.genesis ==>
      t in HaveSet(g, advertised)
  {
    var open := Open(g, advertised);
    forall t | t in g.tips && t in open ensures t in HaveSet(g, advertised) { ReachesSelf(open, t); }
  }

  lemma HaveParents(g: Graph, advertised: set<TxHash>, h: TxHash, q: TxHash)
    requires Closed(g.vertices) && h in HaveSet(g, advertised) && h in g.vertices && IsParent(g.vertices[h], q)
    ensures q in HaveSet(g, advertised) || q in advertised || q == g.genesis
  {
    var open := Open(g, advertised);
    var t :| t in g.tips && t in open && Reaches(open, t, h);
    ReachesThen(open, t, h, q);
  }

  /** What A asks of B is what B would offer A. */
  lemma NeedMeetsHave(a: Graph, b: Graph, peerA: Address, peerB: Address)
    requires Grown(a) && Grown(b) && a.genesis == b.genesis && TipsFit(a) && TipsFit(b)
    requires SameParents(a.vertices, b.vertices)
    ensures NeedSet(a.vertices, InventoryOf(b, peerB)) == HaveSet(b, Advertised(InventoryOf(a, peerA)))
  {
    hide Grown, NeedSet, HaveSet, InventoryOf, Advertised, TipsFit;
    NeedExact(a, b, peerB);
    HaveExact(b, a, peerA);
  }
}
