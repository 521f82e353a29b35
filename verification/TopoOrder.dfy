/** `topo_order_incoming` with its counters and work queue, proved to produce KahnOrder. */
module TopoOrder {
  import opened Basics
  import opened Transactions
  import opened Graphs
  import opened Kahn

  datatype TopoResult = Ordered(txs: seq<DagTransaction>) | MissingParent(parent: TxHash) | CyclicBatch

  /** (dependency, dependent) */
  type Edge = (TxHash, TxHash)

  ghost function Into(edges: set<Edge>, k: TxHash): set<TxHash> { set e | e in edges && e.1 == k :: e.0 }

  ghost function OutOf(edges: set<Edge>, p: TxHash): set<TxHash> { set e | e in edges && e.0 == p :: e.1 }

  /** All dependency edges of the ids in `seen`. */
  ghost function Edges(batch: Vertices, local: set<TxHash>, seen: set<TxHash>): set<Edge> {
    set k, p | k in seen && k in batch && p in Deps(batch, local, k) :: (p, k)
  }

  /** The counters and adjacency lists stand for `edges`. */
  ghost predicate StandFor(batch: Vertices, edges: set<Edge>, indeg: map<TxHash, nat>,
                           dependents: map<TxHash, seq<TxHash>>) {
    && indeg.Keys == batch.Keys
    && (forall k {:trigger indeg[k]} :: k in indeg ==> indeg[k] == |Into(edges, k)|)
    && forall p :: Lists(edges, dependents, p)
  }

  ghost predicate Lists(edges: set<Edge>, dependents: map<TxHash, seq<TxHash>>, p: TxHash) {
    if p in dependents then NoDup(dependents[p]) && ToSet(dependents[p]) == OutOf(edges, p) else OutOf(edges, p) == {}
  }

  lemma AddEdge(batch: Vertices, edges: set<Edge>, indeg: map<TxHash, nat>,
                dependents: map<TxHash, seq<TxHash>>, p: TxHash, k: TxHash)
    requires StandFor(batch, edges, indeg, dependents) && k in batch && (p, k) !in edges
    ensures k in indeg && StandFor(batch, edges + {(p, k)}, indeg[k := indeg[k] + 1],
                     dependents[p := (if p in dependents then dependents[p] else []) + [k]])
  {
    var more := edges + {(p, k)};
    var list := if p in dependents then dependents[p] else [];
    var dependents' := dependents[p := list + [k]];
    forall x | x in batch ensures indeg[k := indeg[k] + 1][x] == |Into(more, x)| {
      IntoMore(edges, p, k, x);
    }
    forall q ensures Lists(more, dependents', q) {
      OutOfMore(edges, p, k, q);
      assert Lists(edges, dependents, q);
      if q == p { ListMore(list, OutOf(edges, p), k); }
    }
  }

  lemma ListMore(list: seq<TxHash>, s: set<TxHash>, k: TxHash)
    requires NoDup(list) && ToSet(list) == s && k !in s
    ensures NoDup(list + [k]) && ToSet(list + [k]) == s + {k}
  {}

  lemma IntoMore(edges: set<Edge>, p: TxHash, k: TxHash, x: TxHash)
    requires (p, k) !in edges
    ensures |Into(edges + {(p, k)}, x)| == |Into(edges, x)| + if x == k then 1 else 0
  {
    var more := edges + {(p, k)};
    forall y ensures y in Into(more, x) <==> y in Into(edges, x) || (x == k && y == p) {
      assert y in Into(more, x) <==> (y, x) in more;
      assert y in Into(edges, x) <==> (y, x) in edges;
    }
    if x == k {
      assert Into(more, x) == Into(edges, x) + {p};
    } else {
      assert Into(more, x) == Into(edges, x);
    }
  }

  lemma OutOfMore(edges: set<Edge>, p: TxHash, k: TxHash, q: TxHash)
    requires (p, k) !in edges
    ensures OutOf(edges + {(p, k)}, q) == OutOf(edges, q) + if q == p then {k} else {}
    ensures k !in OutOf(edges, p)
  {
    var more := edges + {(p, k)};
    forall y ensures y in OutOf(more, q) <==> y in OutOf(edges, q) || (q == p && y == k) {
      assert y in OutOf(more, q) <==> (q, y) in more;
      assert y in OutOf(edges, q) <==> (q, y) in edges;
    }
    assert k in OutOf(edges, p) <==> (p, k) in edges;
  }

  method CollectUnique(txs: seq<DagTransaction>) returns (unique: Vertices)
    ensures unique == FirstById(txs)
  {
    unique := map[];
    for i := 0 to |txs|
      invariant unique == FirstById(txs[..i])
    {
      assert txs[..i + 1][..i] == txs[..i];
      if txs[i].id !in unique {
        unique := unique[txs[i].id := txs[i]];
      }
    }
    assert txs[..|txs|] == txs;
  }

  /** The edges of `k` through the first i of its parents. */
  ghost function EdgesUpTo(batch: Vertices, local: set<TxHash>, parents: seq<TxHash>, i: nat, k: TxHash): set<Edge>
    requires i <= |parents|
  {
    set p | p in parents[..i] && p in batch && p !in local :: (p, k)
  }

  /** Counts and links the parents of one vertex. */
  method CountParents(batch: Vertices, local: set<TxHash>, k: TxHash, ghost edges: set<Edge>,
                      indeg: map<TxHash, nat>, dependents: map<TxHash, seq<TxHash>>)
    returns (missing: Option<TxHash>, indeg': map<TxHash, nat>, dependents': map<TxHash, seq<TxHash>>)
    requires k in batch && StandFor(batch, edges, indeg, dependents) && forall e :: e in edges ==> e.1 != k
    ensures missing.Some? ==> Missing(batch, local, missing.value)
    ensures missing.None? ==>
      Known(batch, local, k) && StandFor(batch, edges + Edges(batch, local, {k}), indeg', dependents')
  {
    hide StandFor, EdgesUpTo, Parents, Edges, Missing, Known;
    indeg', dependents' := indeg, dependents;
    var parents := Parents(batch[k]);
    ghost var cur := edges;
    NoEdgesYet(batch, local, parents, k, edges);
    for i := 0 to |parents|
      invariant forall j :: 0 <= j < i ==> parents[j] in local || parents[j] in batch
      invariant cur == edges + EdgesUpTo(batch, local, parents, i, k) && StandFor(batch, cur, indeg', dependents')
    {
      var p := parents[i];
      NextEdge(batch, local, parents, i, k, edges);
      if p !in local && p !in batch {
        MissingHere(batch, local, k, p);
        return Some(p), indeg', dependents';
      }
      if p in batch && p !in local {
        AddEdge(batch, cur, indeg', dependents', p, k);
        cur := cur + {(p, k)};
        indeg' := indeg'[k := indeg'[k] + 1];
        dependents' := dependents'[p := (if p in dependents' then dependents'[p] else []) + [k]];
      }
    }
    missing := None;
    EdgesOfOne(batch, local, k);
    KnownHere(batch, local, k);
  }

  lemma NoEdgesYet(batch: Vertices, local: set<TxHash>, parents: seq<TxHash>, k: TxHash, edges: set<Edge>)
    ensures edges + EdgesUpTo(batch, local, parents, 0, k) == edges
  {}

  lemma MissingHere(batch: Vertices, local: set<TxHash>, k: TxHash, p: TxHash)
    requires k in batch && p in Parents(batch[k]) && p !in local && p !in batch
    ensures Missing(batch, local, p)
  {}

  lemma KnownHere(batch: Vertices, local: set<TxHash>, k: TxHash)
    requires k in batch
    requires forall j :: 0 <= j < |Parents(batch[k])| ==> Parents(batch[k])[j] in local || Parents(batch[k])[j] in batch
    ensures Known(batch, local, k)
  {}

  lemma NextEdge(batch: Vertices, local: set<TxHash>, parents: seq<TxHash>, i: nat, k: TxHash, edges: set<Edge>)
    requires i < |parents| && k in batch && parents == Parents(batch[k]) && forall e :: e in edges ==> e.1 != k
    ensures var p, old' := parents[i], edges + EdgesUpTo(batch, local, parents, i, k);
      && edges + EdgesUpTo(batch, local, parents, i + 1,
                           k) == old' + (if p in batch && p !in local then {(p, k)} else {})
      && (p, k) !in old'
      && old' + {} == old'
  {
    assert parents[..i + 1] == parents[..i] + [parents[i]];
  }

  lemma EdgesOfOne(batch: Vertices, local: set<TxHash>, k: TxHash)
    requires k in batch
    ensures EdgesUpTo(batch, local, Parents(batch[k]), |Parents(batch[k])|, k) == Edges(batch, local, {k})
  {
    assert Parents(batch[k])[..|Parents(batch[k])|] == Parents(batch[k]);
  }

  method CountDeps(batch: Vertices, local: set<TxHash>)
      returns (missing: Option<TxHash>, indeg: map<TxHash, nat>, dependents: map<TxHash, seq<TxHash>>)
    ensures missing.Some? ==> Missing(batch, local, missing.value)
    ensures missing.None? ==> forall k :: k in batch ==> Known(batch, local, k)
    ensures missing.None? ==> StandFor(batch, Edges(batch, local, batch.Keys), indeg, dependents)
  {
    hide Known, Edges, StandFor, Missing;
    missing, indeg, dependents := None, map k | k in batch :: 0, map[];
    var todo := batch.Keys;
    NoEdges(batch, local, indeg);
    assert batch.Keys - todo == {};
    while todo != {}
      invariant todo <= batch.Keys && missing.None?
      invariant forall k :: k in batch.Keys - todo ==> Known(batch, local, k)
      invariant StandFor(batch, Edges(batch, local, batch.Keys - todo), indeg, dependents)
      decreases todo
    {
      var k :| k in todo;
      ghost var seen := batch.Keys - todo;
      todo := todo - {k};
      assert batch.Keys - todo == seen + {k};
      EdgesMore(batch, local, seen, k);
      missing, indeg, dependents := CountParents(batch, local, k, Edges(batch, local, seen), indeg, dependents);
      if missing.Some? {
        return;
      }
    }
    assert batch.Keys - {} == batch.Keys;
  }

  lemma NoEdges(batch: Vertices, local: set<TxHash>, indeg: map<TxHash, nat>)
    requires indeg == map k | k in batch :: 0
    ensures StandFor(batch, Edges(batch, local, {}), indeg, map[])
  {
    assert Edges(batch, local, {}) == {};
    forall k ensures Into({}, k) == {} && OutOf({}, k) == {} {}
  }

  lemma EdgesMore(batch: Vertices, local: set<TxHash>, seen: set<TxHash>, k: TxHash)
    requires k in batch && k !in seen
    ensures Edges(batch, local, seen + {k}) == Edges(batch, local, seen) + Edges(batch, local, {k})
    ensures forall e :: e in Edges(batch, local, seen) ==> e.1 != k
  {}

  // ------------------------------------------------------------------- queue

  /** Each counter holds the number of dependencies not done yet. */
  ghost predicate Counted(batch: Vertices, local: set<TxHash>, done: set<TxHash>, indeg: map<TxHash, nat>) {
    && indeg.Keys == batch.Keys
    && forall k {:trigger indeg[k]} :: k in indeg ==> indeg[k] == |Deps(batch, local, k) - done|
  }

  ghost predicate Linked(batch: Vertices, local: set<TxHash>, dependents: map<TxHash, seq<TxHash>>, p: TxHash) {
    && (p in dependents ==> NoDup(dependents[p]))
    && forall k :: k in (if p in dependents then dependents[p] else []) <==> k in batch && p in Deps(batch, local, k)
  }

  lemma CountsStart(batch: Vertices, local: set<TxHash>, indeg: map<TxHash, nat>, dependents: map<TxHash, seq<TxHash>>)
    requires StandFor(batch, Edges(batch, local, batch.Keys), indeg, dependents)
    ensures Counted(batch, local, {}, indeg) && forall p :: Linked(batch, local, dependents, p)
    ensures (set k | k in indeg && indeg[k] == 0) == Ready(batch, local, {})
  {
    hide Edges, Deps, Into, OutOf, Linked;
    var edges := Edges(batch, local, batch.Keys);
    forall k | k in batch
      ensures indeg[k] == |Deps(batch, local, k) - {}| && (indeg[k] == 0 <==> Deps(batch, local, k) <= {})
    {
      EdgesAreDeps(batch, local, k, k);
      NothingTaken(Deps(batch, local, k));
    }
    forall p ensures Linked(batch, local, dependents, p) {
      assert Lists(edges, dependents, p);
      ListsLinks(batch, local, edges, dependents, p);
    }
  }

  lemma NothingTaken<T>(s: set<T>)
    ensures s - {} == s && (|s| == 0 <==> s <= {})
  {}

  lemma ListsLinks(batch: Vertices, local: set<TxHash>, edges: set<Edge>,
                   dependents: map<TxHash, seq<TxHash>>, p: TxHash)
    requires edges == Edges(batch, local, batch.Keys) && Lists(edges, dependents, p)
    ensures Linked(batch, local, dependents, p)
  {
    hide Edges, Deps, OutOf;
    forall k ensures k in OutOf(edges, p) <==> k in batch && p in Deps(batch, local, k) {
      EdgesAreDeps(batch, local, k, p);
    }
    assert forall k :: p in dependents ==> (k in dependents[p] <==> k in ToSet(dependents[p]));
  }

  lemma EdgesAreDeps(batch: Vertices, local: set<TxHash>, k: TxHash, p: TxHash)
    ensures var edges := Edges(batch, local, batch.Keys);
      && (k in batch ==> Into(edges, k) == Deps(batch, local, k))
      && (k in OutOf(edges, p) <==> k in batch && p in Deps(batch, local, k))
  {
    hide Deps;
    var edges := Edges(batch, local, batch.Keys);
    forall q ensures (q in Into(edges, k) <==> (q, k) in edges) && (k in OutOf(edges, q) <==> (q, k) in edges) {
      assert (q, k) in edges ==> (q, k).0 == q && (q, k).1 == k;
    }
  }

  /** Dependencies of `k` still open when `released` have had `id` crossed off. */
  ghost function Open(batch: Vertices, local: set<TxHash>, done: set<TxHash>, id: TxHash,
                      released: seq<TxHash>, k: TxHash): set<TxHash>
    requires k in batch
  {
    Deps(batch, local, k) - (if k in released then done + {id} else done)
  }

  ghost function ReadyAmong(batch: Vertices, local: set<TxHash>, done: set<TxHash>, released: seq<TxHash>)
      : set<TxHash> {
    set k | k in released && k in batch && Deps(batch, local, k) <= done
  }

  /** Lowers the counters of the dependents of `id`; returns those that reached zero. */
  method Release(batch: Vertices, local: set<TxHash>, ghost done: set<TxHash>, id: TxHash,
                 indeg: map<TxHash, nat>, dependents: map<TxHash, seq<TxHash>>)
    returns (indeg': map<TxHash, nat>, newly: set<TxHash>)
    requires Counted(batch, local, done, indeg) && Linked(batch, local, dependents, id) && id !in done
    ensures Counted(batch, local, done + {id}, indeg')
    ensures newly == Newly(batch, local, done, id)
  {
    hide Deps, Open, ReadyAmong, Newly, NoDup;
    indeg', newly := indeg, {};
    var kids := if id in dependents then dependents[id] else [];
    ReleaseStart(batch, local, done, id, indeg);
    for j := 0 to |kids|
      invariant indeg'.Keys == batch.Keys
      invariant forall k {:trigger indeg'[k]} :: k in indeg' ==>
        indeg'[k] == |Open(batch, local, done, id, kids[..j], k)|
      invariant newly == ReadyAmong(batch, local, done + {id}, kids[..j])
    {
      var kid := kids[j];
      assert kid in kids;
      ReleaseOne(batch, local, done, id, kids, j);
      var d := indeg'[kid];
      d := if d == 0 then 0 else d - 1;
      indeg' := indeg'[kid := d];
      if d == 0 {
        newly := newly + {kid};
      }
    }
    ReleaseEnd(batch, local, done, id, kids, indeg');
  }

  lemma ReleaseStart(batch: Vertices, local: set<TxHash>, done: set<TxHash>, id: TxHash, indeg: map<TxHash, nat>)
    requires Counted(batch, local, done, indeg)
    ensures forall k {:trigger indeg[k]} :: k in indeg ==> indeg[k] == |Open(batch, local, done, id, [], k)|
    ensures ReadyAmong(batch, local, done + {id}, []) == {}
  {
    hide Deps;
  }

  lemma ReleaseOne(batch: Vertices, local: set<TxHash>, done: set<TxHash>, id: TxHash, kids: seq<TxHash>, j: nat)
    requires j < |kids| && NoDup(kids) && id !in done && kids[j] in batch && id in Deps(batch, local, kids[j])
    ensures forall k :: k in batch && k != kids[j] ==>
      Open(batch, local, done, id, kids[..j + 1], k) == Open(batch, local, done, id, kids[..j], k)
    ensures |Open(batch, local, done, id, kids[..j], kids[j])|
          == |Open(batch, local, done, id, kids[..j + 1], kids[j])| + 1
    ensures ReadyAmong(batch, local, done + {id}, kids[..j + 1]) == ReadyAmong(batch, local, done + {id}, kids[..j])
      + if |Open(batch, local, done, id, kids[..j + 1], kids[j])| == 0 then {kids[j]} else {}
  {
    hide Deps;
    assert kids[..j + 1] == kids[..j] + [kids[j]];
    assert kids[j] !in kids[..j];
    OneLess(Deps(batch, local, kids[j]), done, id);
  }

  lemma ReleaseEnd(batch: Vertices, local: set<TxHash>, done: set<TxHash>, id: TxHash, kids: seq<TxHash>,
                   indeg: map<TxHash, nat>)
    requires indeg.Keys == batch.Keys && forall k :: k in kids <==> k in batch && id in Deps(batch, local, k)
    requires forall k {:trigger indeg[k]} :: k in indeg ==>
      indeg[k] == |Open(batch, local, done, id, kids[..|kids|], k)|
    ensures Counted(batch, local, done + {id}, indeg)
    ensures ReadyAmong(batch, local, done + {id}, kids[..|kids|]) == Newly(batch, local, done, id)
  {
    hide Deps;
    assert kids[..|kids|] == kids;
    forall k | k in batch ensures Open(batch, local, done, id, kids, k) == Deps(batch, local, k) - (done + {id}) {}
  }

  lemma OneLess(deps: set<TxHash>, done: set<TxHash>, id: TxHash)
    requires id in deps && id !in done
    ensures |deps - done| == |deps - (done + {id})| + 1
    ensures |deps - (done + {id})| == 0 <==> deps <= done + {id}
  {
    assert deps - done == (deps - (done + {id})) + {id};
  }

  method RunQueue(batch: Vertices, local: set<TxHash>, indeg: map<TxHash, nat>, dependents: map<TxHash, seq<TxHash>>)
    returns (ordered: seq<DagTransaction>, rest: Vertices)
    requires Counted(batch, local, {}, indeg) && forall p :: Linked(batch, local, dependents, p)
    requires (set k | k in indeg && indeg[k] == 0) == Ready(batch, local, {})
    ensures Listing(batch, KahnOrder(batch, local), ordered)
    ensures rest.Keys == batch.Keys - ToSet(KahnOrder(batch, local))
  {
    hide Deps, Counted, Linked, Newly, Queued, Ready, Sorted, NoDup, KahnRun, KahnOrder, ToSet, Listing, Remaining;
    var queue := Sorted(set k | k in indeg && indeg[k] == 0);
    var counts := indeg;
    ghost var done: seq<TxHash> := [];
    ghost var zero := set k | k in indeg && indeg[k] == 0;
    KahnRunStart(batch, local, zero);
    ordered, rest := [], batch;
    NoneDone(batch);
    while queue != []
      invariant Queued(batch, local, queue, done) && KahnRun(batch, local, queue, done) == KahnOrder(batch, local)
      invariant Counted(batch, local, ToSet(done), counts)
      invariant Listing(batch, done, ordered)
      invariant Remaining(batch, ToSet(done), rest)
      decreases |batch.Keys - ToSet(done)|
    {
      var id := queue[0];
      QueueStep(batch, local, queue, done);
      DoneMore(batch, done, id);
      ToSetAppend(done, id);
      KahnRunStep(batch, local, queue, done);
      queue := queue[1..];
      RestHas(batch, ToSet(done), rest, id);
      ListingMore(batch, done, ordered, id);
      var tx := rest[id];
      rest := rest - {id};
      var newly;
      counts, newly := Release(batch, local, ToSet(done), id, counts, dependents);
      queue := queue + Sorted(newly);
      ordered := ordered + [tx];
      done := done + [id];
    }
    KahnRunEnd(batch, local, done);
    RestKeys(batch, ToSet(done), rest);
  }

  lemma RestKeys(batch: Vertices, done: set<TxHash>, rest: Vertices)
    requires Remaining(batch, done, rest)
    ensures rest.Keys == batch.Keys - done
  {}

  ghost predicate Listing(batch: Vertices, ids: seq<TxHash>, txs: seq<DagTransaction>) {
    |txs| == |ids| && forall i :: 0 <= i < |ids| ==> ids[i] in batch && txs[i] == batch[ids[i]]
  }

  /** The bodies not emitted yet. */
  ghost predicate Remaining(batch: Vertices, done: set<TxHash>, rest: Vertices) {
    rest.Keys == batch.Keys - done && forall k :: k in rest ==> rest[k] == batch[k]
  }

  lemma NoneDone(batch: Vertices)
    ensures ToSet<TxHash>([]) == {} && Remaining(batch, {}, batch) && Listing(batch, [], [])
  {}

  lemma RestHas(batch: Vertices, done: set<TxHash>, rest: Vertices, id: TxHash)
    requires Remaining(batch, done, rest) && id in batch && id !in done
    ensures id in rest && rest[id] == batch[id] && Remaining(batch, done + {id}, rest - {id})
  {}

  lemma ListingMore(batch: Vertices, done: seq<TxHash>, ordered: seq<DagTransaction>, id: TxHash)
    requires Listing(batch, done, ordered) && id in batch
    ensures Listing(batch, done + [id], ordered + [batch[id]])
  {}

  lemma KahnRunStart(batch: Vertices, local: set<TxHash>, zero: set<TxHash>)
    requires zero == Ready(batch, local, {})
    ensures Queued(batch, local, Sorted(zero), [])
    ensures KahnRun(batch, local, Sorted(zero), []) == KahnOrder(batch, local)
  {
    hide Ready;
    QueueStart(batch, local);
  }

  lemma KahnRunStep(batch: Vertices, local: set<TxHash>, queue: seq<TxHash>, done: seq<TxHash>)
    requires Queued(batch, local, queue, done) && queue != []
    requires Queued(batch, local, queue[1..] + Sorted(Newly(batch, local, ToSet(done), queue[0])), done + [queue[0]])
    ensures KahnRun(batch, local, queue, done)
         == KahnRun(batch, local, queue[1..] + Sorted(Newly(batch, local, ToSet(done), queue[0])), done + [queue[0]])
  {
    hide Queued, Newly, Sorted;
  }

  lemma KahnRunEnd(batch: Vertices, local: set<TxHash>, done: seq<TxHash>)
    requires Queued(batch, local, [], done)
    ensures KahnRun(batch, local, [], done) == done
  {}

  /** Missing parents and cycles are reported; otherwise the deduplicated batch comes back
      in the order of KahnOrder, whatever order it was offered or iterated in. */
  method TopoOrderIncoming(local: set<TxHash>, txs: seq<DagTransaction>) returns (r: TopoResult)
    ensures var batch := FirstById(txs);
      && (r.MissingParent? <==> exists p :: Missing(batch, local, p))
      && (r.MissingParent? ==> Missing(batch, local, r.parent))
      && (!r.MissingParent? ==> (r.CyclicBatch? <==> HasCycle(batch, local)))
      && (r.Ordered? ==>
            var s := KahnOrder(batch, local);
            Sequenced(batch, local, s) && ToSet(s) == batch.Keys && Listing(batch, s, r.txs))
  {
    hide KahnOrder, Sequenced, HasCycle, StandFor, Counted, Linked, Ready, Missing, Known, Edges;
    var batch := CollectUnique(txs);
    var missing, indeg, dependents := CountDeps(batch, local);
    if missing.Some? {
      return MissingParent(missing.value);
    }
    NoneMissing(batch, local);
    CountsStart(batch, local, indeg, dependents);
    var ordered, rest := RunQueue(batch, local, indeg, dependents);
    KahnOrderLaw(batch, local);
    SequencedWithin(batch, local, KahnOrder(batch, local));
    NothingLeft(batch, ToSet(KahnOrder(batch, local)), rest);
    hide ToSet, FirstById, Listing;
    if rest != map[] {
      return CyclicBatch;
    }
    r := Ordered(ordered);
  }

  lemma NothingLeft(batch: Vertices, done: set<TxHash>, rest: Vertices)
    requires done <= batch.Keys && rest.Keys == batch.Keys - done
    ensures rest == map[] <==> done == batch.Keys
  {
    if rest.Keys == {} {
      assert rest == map[];
      assert forall x :: x in batch.Keys ==> x !in batch.Keys - done;
    }
  }

  lemma NoneMissing(batch: Vertices, local: set<TxHash>)
    requires forall k :: k in batch ==> Known(batch, local, k)
    ensures !exists p :: Missing(batch, local, p)
  {}

  lemma SequencedWithin(batch: Vertices, local: set<TxHash>, s: seq<TxHash>)
    requires Sequenced(batch, local, s)
    ensures ToSet(s) <= batch.Keys
  {}
}
