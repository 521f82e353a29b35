/** `topo_order_incoming` (src/dag/sync.rs): Kahn's algorithm on an incoming batch. */
module Kahn {
  import opened Basics
  import opened Transactions
  import opened Graphs
  import opened Ancestry

  /** `unique.entry(id).or_insert(tx)`: the first vertex offered under each id. */
  function FirstById(txs: seq<DagTransaction>): map<TxHash, DagTransaction> {
    if txs == [] then map[]
    else
      var m, last := FirstById(txs[..|txs| - 1]), txs[|txs| - 1];
      if last.id in m then m else m[last.id := last]
  }

  /** Of several vertices under one id the first offered is taken. */
  lemma {:induction false} FirstOffered(txs: seq<DagTransaction>, i: nat)
    requires i < |txs| && forall j :: 0 <= j < i ==> txs[j].id != txs[i].id
    ensures txs[i].id in FirstById(txs) && FirstById(txs)[txs[i].id] == txs[i]
    decreases |txs|
  {
    var n := |txs| - 1;
    if i < n { FirstOffered(txs[..n], i); } else { OfferedOnly(txs[..n], txs[i].id); }
  }

  lemma {:induction false} OfferedOnly(txs: seq<DagTransaction>, id: TxHash)
    requires forall j :: 0 <= j < |txs| ==> txs[j].id != id
    ensures id !in FirstById(txs)
  {
    if txs != [] { OfferedOnly(txs[..|txs| - 1], id); }
  }

  /** The parents that must come first: in the batch and not stored locally. */
  function Deps(batch: Vertices, local: set<TxHash>, k: TxHash): set<TxHash>
    requires k in batch
  {
    set p | p in Parents(batch[k]) && p in batch && p !in local
  }

  ghost predicate Known(batch: Vertices, local: set<TxHash>, k: TxHash)
    requires k in batch
  {
    forall p :: p in Parents(batch[k]) ==> p in local || p in batch
  }

  /** Some parent is neither stored nor offered. */
  ghost predicate Missing(batch: Vertices, local: set<TxHash>, p: TxHash) {
    p !in local && p !in batch && exists k :: k in batch && p in Parents(batch[k])
  }

  // ------------------------------------------------------------------ cycles

  ghost predicate DepStep(batch: Vertices, local: set<TxHash>, p: seq<TxHash>, i: nat)
    requires i < |p| - 1
  {
    p[i] in batch && p[i + 1] in Deps(batch, local, p[i])
  }

  /** A chain of dependencies inside the batch. */
  ghost predicate DepPath(batch: Vertices, local: set<TxHash>, p: seq<TxHash>) {
    forall i :: 0 <= i < |p| - 1 ==> DepStep(batch, local, p, i)
  }

  /** Some chain of dependencies leads from a vertex back to itself. */
  ghost predicate HasCycle(batch: Vertices, local: set<TxHash>) {
    exists p :: |p| >= 2 && p[0] == p[|p| - 1] && DepPath(batch, local, p)
  }

  /** Each vertex comes after everything it depends on. */
  ghost predicate Sequenced(batch: Vertices, local: set<TxHash>, s: seq<TxHash>) {
    && NoDup(s) && ToSet(s) <= batch.Keys
    && forall i :: 0 <= i < |s| ==> s[i] in batch && Deps(batch, local, s[i]) <= ToSet(s[..i])
  }

  lemma {:induction false} DepPathDescends(batch: Vertices, local: set<TxHash>, s: seq<TxHash>,
                                           p: seq<TxHash>, k: nat, i: nat) returns (j: nat)
    requires Sequenced(batch, local, s) && DepPath(batch, local, p) && k < |p| && i < |s| && s[i] == p[0]
    ensures j <= i && (k > 0 ==> j < i) && s[j] == p[k]
  {
    j := i;
    if k > 0 {
      var m := DepPathDescends(batch, local, s, p, k - 1, i);
      assert DepStep(batch, local, p, k - 1);
      assert p[k] in ToSet(s[..m]);
      j :| 0 <= j < m && s[j] == p[k];
    }
  }

  /** A complete sequencing excludes cycles. */
  lemma SequencedAcyclic(batch: Vertices, local: set<TxHash>, s: seq<TxHash>)
    requires Sequenced(batch, local, s) && ToSet(s) == batch.Keys
    ensures !HasCycle(batch, local)
  {
    hide Deps;
    forall p ensures !(|p| >= 2 && p[0] == p[|p| - 1] && DepPath(batch, local, p)) {
      if |p| >= 2 && DepPath(batch, local, p) {
        assert DepStep(batch, local, p, 0);
        assert p[0] in ToSet(s);
        var i :| 0 <= i < |s| && s[i] == p[0];
        var j := DepPathDescends(batch, local, s, p, |p| - 1, i);
      }
    }
  }

  /** From a set in which everyone depends on someone in the set, arbitrarily long chains. */
  lemma {:induction false} Chain(batch: Vertices, local: set<TxHash>, stuck: set<TxHash>, k: TxHash, n: nat)
      returns (p: seq<TxHash>)
    requires k in stuck && stuck <= batch.Keys
    requires forall x :: x in stuck ==> x in batch && Deps(batch, local, x) * stuck != {}
    ensures |p| == n + 1 && p[0] == k && DepPath(batch, local, p) && ToSet(p) <= stuck
    decreases n
  {
    if n == 0 {
      p := [k];
    } else {
      var next :| next in Deps(batch, local, k) * stuck;
      hide Deps, DepPath;
      var q := Chain(batch, local, stuck, next, n - 1);
      p := [k] + q;
      ChainMore(batch, local, stuck, k, q);
    }
  }

  lemma ChainMore(batch: Vertices, local: set<TxHash>, stuck: set<TxHash>, k: TxHash, q: seq<TxHash>)
    requires q != [] && k in stuck && ToSet(q) <= stuck && k in batch && q[0] in Deps(batch, local, k)
    requires DepPath(batch, local, q)
    ensures DepPath(batch, local, [k] + q) && ToSet([k] + q) <= stuck
  {
    hide Deps;
    var p := [k] + q;
    forall i | 0 <= i < |p| - 1 ensures DepStep(batch, local, p, i) {
      if i > 0 { assert DepStep(batch, local, q, i - 1); }
    }
    forall x | x in ToSet(p) ensures x in stuck { assert x == k || x in ToSet(q); }
  }

  /** A chain longer than the set it stays in repeats a vertex. */
  lemma StuckHasCycle(batch: Vertices, local: set<TxHash>, stuck: set<TxHash>)
    requires stuck != {} && stuck <= batch.Keys
    requires forall x :: x in stuck ==> x in batch && Deps(batch, local, x) * stuck != {}
    ensures HasCycle(batch, local)
  {
    hide Deps, HasCycle, DepPath;
    var k :| k in stuck;
    var p := Chain(batch, local, stuck, k, |stuck|);
    var i, j := Repeats(p, stuck);
    CutCycle(batch, local, p, i, j);
  }

  lemma Repeats<T>(p: seq<T>, s: set<T>) returns (i: nat, j: nat)
    requires ToSet(p) <= s && |p| > |s|
    ensures i < j < |p| && p[i] == p[j]
  {
    SubsetSmaller(ToSet(p), s);
    if NoDup(p) { NoDupCard(p); }
    i, j :| 0 <= i < j < |p| && p[i] == p[j];
  }

  lemma CutCycle(batch: Vertices, local: set<TxHash>, p: seq<TxHash>, i: nat, j: nat)
    requires DepPath(batch, local, p) && i < j < |p| && p[i] == p[j]
    ensures HasCycle(batch, local)
  {
    hide Deps;
    var c := p[i..j + 1];
    forall m | 0 <= m < |c| - 1 ensures DepStep(batch, local, c, m) { assert DepStep(batch, local, p, i + m); }
    assert DepPath(batch, local, c) && c[0] == c[|c| - 1];
  }

  // --------------------------------------------------------- the algorithm

  /** Vertices whose dependencies all lie in `done`. */
  ghost function Ready(batch: Vertices, local: set<TxHash>, done: set<TxHash>): set<TxHash> {
    set k | k in batch && Deps(batch, local, k) <= done
  }

  /** Vertices that become ready when `id` is done. */
  ghost function Newly(batch: Vertices, local: set<TxHash>, done: set<TxHash>, id: TxHash): set<TxHash> {
    set k | k in batch && id in Deps(batch, local, k) && Deps(batch, local, k) <= done + {id}
  }

  /** Done and queued vertices are the ready ones, each once, dependencies first. */
  ghost predicate Queued(batch: Vertices, local: set<TxHash>, queue: seq<TxHash>, done: seq<TxHash>) {
    && NoDup(done + queue)
    && ToSet(done + queue) == Ready(batch, local, ToSet(done))
    && Sequenced(batch, local, done)
  }

  lemma QueueStart(batch: Vertices, local: set<TxHash>)
    ensures Queued(batch, local, Sorted(Ready(batch, local, {})), [])
  {
    var q := Sorted(Ready(batch, local, {}));
    assert [] + q == q && ToSet<TxHash>([]) == {};
  }

  lemma QueueStep(batch: Vertices, local: set<TxHash>, queue: seq<TxHash>, done: seq<TxHash>)
    requires Queued(batch, local, queue, done) && queue != []
    ensures queue[0] in batch && queue[0] !in done && queue[0] !in ToSet(done)
    ensures Queued(batch, local, queue[1..] + Sorted(Newly(batch, local, ToSet(done), queue[0])), done + [queue[0]])
  {
    hide Deps, Ready, Newly, Sequenced, NoDup, Sorted, Increasing, ToSet;
    var id, new' := queue[0], Newly(batch, local, ToSet(done), queue[0]);
    NotYet(batch, local, queue, done);
    ReadyMore(batch, local, ToSet(done), id);
    SequencedMore(batch, local, queue, done);
    ToSetAppend(done, id);
    QueueAppend(done + queue, Sorted(new'));
    assert (done + [id]) + (queue[1..] + Sorted(new')) == done + queue + Sorted(new');
  }

  lemma ToSetAppend(done: seq<TxHash>, id: TxHash)
    ensures ToSet(done + [id]) == ToSet(done) + {id}
  {}

  lemma QueueAppend(all: seq<TxHash>, more: seq<TxHash>)
    requires NoDup(all) && Increasing(more) && ToSet(more) !! ToSet(all)
    ensures NoDup(all + more) && ToSet(all + more) == ToSet(all) + ToSet(more)
  {
    forall i, j | 0 <= i < |all| && 0 <= j < |more| ensures all[i] != more[j] {
      assert all[i] in ToSet(all) && more[j] in ToSet(more);
    }
  }

  lemma ReadyMore(batch: Vertices, local: set<TxHash>, done: set<TxHash>, id: TxHash)
    ensures Ready(batch, local, done + {id}) == Ready(batch, local, done) + Newly(batch, local, done, id)
  {}

  lemma SequencedMore(batch: Vertices, local: set<TxHash>, queue: seq<TxHash>, done: seq<TxHash>)
    requires Queued(batch, local, queue, done) && queue != [] && queue[0] in batch && queue[0] !in ToSet(done)
    ensures Sequenced(batch, local, done + [queue[0]])
  {
    var id := queue[0];
    assert (done + queue)[|done|] == id && id in ToSet(done + queue);
    forall i | 0 <= i < |done + [id]|
      ensures (done + [id])[i] in batch && Deps(batch, local, (done + [id])[i]) <= ToSet((done + [id])[..i])
    {
      assert (done + [id])[..i] == done[..i];
      if i == |done| { assert done[..i] == done; }
    }
  }

  /** A newly ready vertex was neither done nor queued. */
  lemma NotYet(batch: Vertices, local: set<TxHash>, queue: seq<TxHash>, done: seq<TxHash>)
    requires Queued(batch, local, queue, done) && queue != []
    ensures queue[0] in batch && queue[0] !in ToSet(done) && queue[0] !in done
    ensures Newly(batch, local, ToSet(done), queue[0]) !! ToSet(done + queue)
  {
    var all := done + queue;
    assert all[|done|] == queue[0] && queue[0] in ToSet(all);
    forall x | x in ToSet(done) ensures x != queue[0] {
      var i :| 0 <= i < |done| && done[i] == x;
      assert all[i] == x;
    }
  }

  /** The order Kahn's algorithm produces from a queue: a function of the batch and the
      local ids alone. */
  ghost function KahnRun(batch: Vertices, local: set<TxHash>, queue: seq<TxHash>, done: seq<TxHash>): seq<TxHash>
    requires Queued(batch, local, queue, done)
    decreases |batch.Keys - ToSet(done)|
  {
    if queue == [] then done
    else
      QueueStep(batch, local, queue, done);
      DoneMore(batch, done, queue[0]);
      KahnRun(batch, local, queue[1..] + Sorted(Newly(batch, local, ToSet(done), queue[0])), done + [queue[0]])
  }

  lemma DoneMore(batch: Vertices, done: seq<TxHash>, id: TxHash)
    requires id in batch && id !in done
    ensures |batch.Keys - ToSet(done + [id])| < |batch.Keys - ToSet(done)|
  {
    assert id in batch.Keys - ToSet(done);
    assert id in done + [id];
    assert batch.Keys - ToSet(done + [id]) < batch.Keys - ToSet(done);
    ProperSubsetSmaller(batch.Keys - ToSet(done + [id]), batch.Keys - ToSet(done));
  }

  ghost function KahnOrder(batch: Vertices, local: set<TxHash>): seq<TxHash> {
    QueueStart(batch, local);
    KahnRun(batch, local, Sorted(Ready(batch, local, {})), [])
  }

  lemma {:induction false} KahnRunLaw(batch: Vertices, local: set<TxHash>, queue: seq<TxHash>, done: seq<TxHash>)
    requires Queued(batch, local, queue, done)
    ensures Queued(batch, local, [], KahnRun(batch, local, queue, done))
    decreases |batch.Keys - ToSet(done)|
  {
    hide Queued;
    if queue != [] {
      QueueStep(batch, local, queue, done);
      DoneMore(batch, done, queue[0]);
      KahnRunLaw(batch, local, queue[1..] + Sorted(Newly(batch, local, ToSet(done), queue[0])), done + [queue[0]]);
    }
  }

  /** The run sequences what it can; it leaves nothing out exactly when there is no cycle. */
  lemma KahnOrderLaw(batch: Vertices, local: set<TxHash>)
    ensures Sequenced(batch, local, KahnOrder(batch, local))
    ensures ToSet(KahnOrder(batch, local)) == batch.Keys <==> !HasCycle(batch, local)
  {
    QueueStart(batch, local);
    KahnRunLaw(batch, local, Sorted(Ready(batch, local, {})), []);
    LeftOver(batch, local, KahnOrder(batch, local));
  }

  lemma LeftOver(batch: Vertices, local: set<TxHash>, s: seq<TxHash>)
    requires Queued(batch, local, [], s)
    ensures Sequenced(batch, local, s)
    ensures ToSet(s) == batch.Keys <==> !HasCycle(batch, local)
  {
    assert s + [] == s;
    if ToSet(s) == batch.Keys {
      SequencedAcyclic(batch, local, s);
    } else {
      var stuck := batch.Keys - ToSet(s);
      forall x | x in stuck ensures x in batch && Deps(batch, local, x) * stuck != {} {
        assert x !in Ready(batch, local, ToSet(s));
        var p :| p in Deps(batch, local, x) && p !in ToSet(s);
        assert p in Deps(batch, local, x) * stuck;
      }
      StuckHasCycle(batch, local, stuck);
    }
  }

  // --------------------------------------------------------- which order it is

  /** Every dependency of `x` is among the first m of `s`. */
  ghost predicate Released(batch: Vertices, local: set<TxHash>, s: seq<TxHash>, x: TxHash, m: nat) {
    x in batch && m <= |s| && Deps(batch, local, x) <= ToSet(s[..m])
  }

  /** `x` is released no later than `y`, and has the smaller id if no earlier. */
  ghost predicate Ahead(batch: Vertices, local: set<TxHash>, s: seq<TxHash>, x: TxHash, y: TxHash) {
    && (forall m: nat :: Released(batch, local, s, y, m) ==> Released(batch, local, s, x, m))
    && ((forall m: nat :: Released(batch, local, s, x, m) ==> Released(batch, local, s, y, m)) ==> x < y)
  }

  /** The listed vertices are served first come, first served, as far as `done` tells. */
  ghost predicate Served(batch: Vertices, local: set<TxHash>, done: seq<TxHash>, all: seq<TxHash>) {
    forall i, j :: 0 <= i < j < |all| ==> Ahead(batch, local, done, all[i], all[j])
  }

  lemma ReleasedKept(batch: Vertices, local: set<TxHash>, done: seq<TxHash>, id: TxHash, x: TxHash, m: nat)
    ensures m <= |done| ==> (Released(batch, local, done + [id], x, m) <==> Released(batch, local, done, x, m))
    ensures x in batch && Deps(batch, local, x) <= ToSet(done) + {id} ==>
      Released(batch, local, done + [id], x, |done| + 1)
    ensures x in batch && Deps(batch, local, x) <= ToSet(done) ==> Released(batch, local, done, x, |done|)
  {
    hide Deps;
    if m <= |done| { assert (done + [id])[..m] == done[..m]; }
    assert (done + [id])[..|done| + 1] == done + [id] && done[..|done|] == done;
    ToSetAppend(done, id);
  }

  lemma AheadKept(batch: Vertices, local: set<TxHash>, done: seq<TxHash>, id: TxHash, x: TxHash, y: TxHash)
    requires Ahead(batch, local, done, x, y)
    requires x in Ready(batch, local, ToSet(done)) && y in Ready(batch, local, ToSet(done))
    ensures Ahead(batch, local, done + [id], x, y)
  {
    hide Deps;
    forall m: nat
      ensures m <= |done| ==> (Released(batch, local, done + [id], x, m) <==> Released(batch, local, done, x, m))
      ensures m <= |done| ==> (Released(batch, local, done + [id], y, m) <==> Released(batch, local, done, y, m))
    {
      ReleasedKept(batch, local, done, id, x, m);
      ReleasedKept(batch, local, done, id, y, m);
    }
    ReleasedKept(batch, local, done, id, x, 0);
    ReleasedKept(batch, local, done, id, y, 0);
  }

  /** A newly released vertex waits for the one just done and for no other. */
  lemma NewlyReleased(batch: Vertices, local: set<TxHash>, done: seq<TxHash>, id: TxHash, y: TxHash, m: nat)
    requires y in Newly(batch, local, ToSet(done), id) && id !in done
    ensures Released(batch, local, done + [id], y, m) <==> m == |done| + 1
  {
    ReleasedKept(batch, local, done, id, y, m);
    if m <= |done| { assert id in Deps(batch, local, y) && id !in ToSet(done[..m]); }
    hide Deps;
  }

  lemma ServedStep(batch: Vertices, local: set<TxHash>, queue: seq<TxHash>, done: seq<TxHash>)
    requires Queued(batch, local, queue, done) && queue != [] && Served(batch, local, done, done + queue)
    ensures var fresh' := Sorted(Newly(batch, local, ToSet(done), queue[0]));
      Served(batch, local, done + [queue[0]], done + [queue[0]] + (queue[1..] + fresh'))
  {
    hide Newly, Sorted, Increasing, Served, Sequenced, Ready;
    var id, fresh' := queue[0], Sorted(Newly(batch, local, ToSet(done), queue[0]));
    NotYet(batch, local, queue, done);
    QueuedReady(batch, local, queue, done);
    hide Queued;
    ServedMore(batch, local, done, id, done + queue, fresh');
    assert done + [id] + (queue[1..] + fresh') == done + queue + fresh';
  }

  lemma ServedMore(batch: Vertices, local: set<TxHash>, done: seq<TxHash>, id: TxHash,
                   all: seq<TxHash>, fresh': seq<TxHash>)
    requires Served(batch, local, done, all) && id !in done
    requires forall k :: 0 <= k < |all| ==> all[k] in Ready(batch, local, ToSet(done))
    requires fresh' == Sorted(Newly(batch, local, ToSet(done), id))
    ensures Served(batch, local, done + [id], all + fresh')
  {
    hide Newly, Sorted, Increasing, Ahead, Ready, ToSet;
    forall i, j | 0 <= i < j < |all + fresh'|
      ensures Ahead(batch, local, done + [id], (all + fresh')[i], (all + fresh')[j])
    {
      if j < |all| {
        AheadKept(batch, local, done, id, all[i], all[j]);
      } else {
        JoinsAhead(batch, local, done, id, all, fresh', i, j - |all|);
      }
    }
  }

  lemma JoinsAhead(batch: Vertices, local: set<TxHash>, done: seq<TxHash>, id: TxHash,
                   all: seq<TxHash>, fresh': seq<TxHash>, i: nat, j: nat)
    requires id !in done && fresh' == Sorted(Newly(batch, local, ToSet(done), id)) && j < |fresh'| && i < |all| + j
    requires forall k :: 0 <= k < |all| ==> all[k] in Ready(batch, local, ToSet(done))
    ensures Ahead(batch, local, done + [id], (all + fresh')[i], fresh'[j])
  {
    hide Newly, Sorted, Increasing, Ahead, Ready;
    assert fresh'[j] in ToSet(fresh');
    if i < |all| {
      OldAhead(batch, local, done, id, all[i], fresh'[j]);
    } else {
      assert fresh'[i - |all|] in ToSet(fresh');
      IncreasingAt(fresh', i - |all|, j);
      NewAhead(batch, local, done, id, fresh'[i - |all|], fresh'[j]);
    }
  }

  lemma IncreasingAt(s: seq<nat>, i: nat, j: nat)
    requires Increasing(s) && i < j < |s|
    ensures s[i] < s[j]
  {}

  lemma QueuedReady(batch: Vertices, local: set<TxHash>, queue: seq<TxHash>, done: seq<TxHash>)
    requires Queued(batch, local, queue, done)
    ensures forall i :: 0 <= i < |done + queue| ==> (done + queue)[i] in Ready(batch, local, ToSet(done))
  {
    forall i | 0 <= i < |done + queue| ensures (done + queue)[i] in Ready(batch, local, ToSet(done)) {
      assert (done + queue)[i] in ToSet(done + queue);
    }
  }

  lemma OldAhead(batch: Vertices, local: set<TxHash>, done: seq<TxHash>, id: TxHash, x: TxHash, y: TxHash)
    requires x in Ready(batch, local, ToSet(done)) && y in Newly(batch, local, ToSet(done), id) && id !in done
    ensures Ahead(batch, local, done + [id], x, y)
  {
    forall m: nat ensures Released(batch, local, done + [id], y, m) <==> m == |done| + 1 {
      NewlyReleased(batch, local, done, id, y, m);
    }
    ReleasedKept(batch, local, done, id, x, |done|);
    hide Deps, Released;
  }

  lemma NewAhead(batch: Vertices, local: set<TxHash>, done: seq<TxHash>, id: TxHash, x: TxHash, y: TxHash)
    requires x in Newly(batch, local, ToSet(done), id) && y in Newly(batch, local, ToSet(done), id) && id !in done
    requires x < y
    ensures Ahead(batch, local, done + [id], x, y)
  {
    forall m: nat
      ensures Released(batch, local, done + [id], x, m) <==> m == |done| + 1
      ensures Released(batch, local, done + [id], y, m) <==> m == |done| + 1
    {
      NewlyReleased(batch, local, done, id, x, m);
      NewlyReleased(batch, local, done, id, y, m);
    }
    hide Released;
  }

  lemma {:induction false} KahnRunServes(batch: Vertices, local: set<TxHash>, queue: seq<TxHash>, done: seq<TxHash>)
    requires Queued(batch, local, queue, done) && Served(batch, local, done, done + queue)
    ensures var s := KahnRun(batch, local, queue, done); Served(batch, local, s, s)
    decreases |batch.Keys - ToSet(done)|
  {
    hide Queued, Served, Newly, Sorted;
    if queue != [] {
      QueueStep(batch, local, queue, done);
      DoneMore(batch, done, queue[0]);
      ServedStep(batch, local, queue, done);
      KahnRunServes(batch, local, queue[1..] + Sorted(Newly(batch, local, ToSet(done), queue[0])), done + [queue[0]]);
    } else {
      assert done + [] == done;
    }
  }

  /** The order is first come, first served: of two vertices the one whose last dependency was
      sequenced earlier comes first, and the smaller id among those released together. */
  lemma KahnOrderExact(batch: Vertices, local: set<TxHash>, i: nat, j: nat)
    requires i < j < |KahnOrder(batch, local)|
    ensures var s := KahnOrder(batch, local); Ahead(batch, local, s, s[i], s[j])
  {
    hide Queued, Ahead, KahnRun, Ready, Sorted;
    var q := Sorted(Ready(batch, local, {}));
    QueueStart(batch, local);
    StartAhead(batch, local, q);
    assert [] + q == q;
    KahnRunServes(batch, local, q, []);
  }

  lemma StartAhead(batch: Vertices, local: set<TxHash>, q: seq<TxHash>)
    requires q == Sorted(Ready(batch, local, {}))
    ensures Served(batch, local, [], q)
  {
    hide Sorted, Increasing, Deps;
    forall k, l | 0 <= k < l < |q| ensures Ahead(batch, local, [], q[k], q[l]) {
      assert q[k] in ToSet(q) && q[l] in ToSet(q);
      IncreasingAt(q, k, l);
      BothReady(batch, local, q[k], q[l]);
    }
  }

  lemma BothReady(batch: Vertices, local: set<TxHash>, x: TxHash, y: TxHash)
    requires x in Ready(batch, local, {}) && y in Ready(batch, local, {}) && x < y
    ensures Ahead(batch, local, [], x, y)
  {
    hide Deps;
  }

  // ------------------------------------------------------- what it depends on

  /** Two batches with the same ids and, id by id, the same parents. */
  ghost predicate SameShape(a: Vertices, b: Vertices) {
    a.Keys == b.Keys && forall k {:trigger a[k]} {:trigger b[k]} :: k in a ==> Parents(a[k]) == Parents(b[k])
  }

  lemma SameEdges(a: Vertices, b: Vertices, local: set<TxHash>, done: set<TxHash>, id: TxHash)
    requires SameShape(a, b)
    ensures Ready(a, local, done) == Ready(b, local, done) && Newly(a, local, done, id) == Newly(b, local, done, id)
    ensures forall k {:trigger Deps(a, local, k)} :: k in a ==> Deps(a, local, k) == Deps(b, local, k)
  {
    forall k | k in a ensures Deps(a, local, k) == Deps(b, local, k) {
      assert Parents(a[k]) == Parents(b[k]);
    }
    hide Deps;
  }

  lemma {:induction false} SameRun(a: Vertices, b: Vertices, local: set<TxHash>, queue: seq<TxHash>, done: seq<TxHash>)
    requires SameShape(a, b) && Queued(a, local, queue, done) && Queued(b, local, queue, done)
    ensures KahnRun(a, local, queue, done) == KahnRun(b, local, queue, done)
    decreases |a.Keys - ToSet(done)|
  {
    hide Queued, SameShape, Newly, Deps, Sorted;
    if queue != [] {
      SameEdges(a, b, local, ToSet(done), queue[0]);
      QueueStep(a, local, queue, done);
      QueueStep(b, local, queue, done);
      DoneMore(a, done, queue[0]);
      SameRun(a, b, local, queue[1..] + Sorted(Newly(a, local, ToSet(done), queue[0])), done + [queue[0]]);
    }
  }

  /** The id order, and whether there is a missing parent or a cycle, only depend on the ids of
      a batch and their parents: not on bodies, relay sidecars or the order of arrival. */
  lemma ShapeDecides(a: Vertices, b: Vertices, local: set<TxHash>)
    requires SameShape(a, b)
    ensures KahnOrder(a, local) == KahnOrder(b, local)
    ensures HasCycle(a, local) <==> HasCycle(b, local)
    ensures forall p :: Missing(a, local, p) <==> Missing(b, local, p)
  {
    SameMissing(a, b, local);
    hide Queued, SameShape, Ready, HasCycle, Missing, Sequenced;
    QueueStart(a, local);
    QueueStart(b, local);
    SameEdges(a, b, local, {}, 0);
    SameRun(a, b, local, Sorted(Ready(a, local, {})), []);
    SameKeys(a, b);
    KahnOrderLaw(a, local);
    KahnOrderLaw(b, local);
  }

  lemma SameKeys(a: Vertices, b: Vertices)
    requires SameShape(a, b)
    ensures a.Keys == b.Keys
  {}

  lemma SameMissing(a: Vertices, b: Vertices, local: set<TxHash>)
    requires SameShape(a, b)
    ensures forall p :: Missing(a, local, p) <==> Missing(b, local, p)
  {
    forall p ensures Missing(a, local, p) <==> Missing(b, local, p) {
      if Missing(a, local, p) {
        var k :| k in a && p in Parents(a[k]);
        assert p in Parents(b[k]);
      }
      if Missing(b, local, p) {
        var k :| k in b && p in Parents(b[k]);
        assert p in Parents(a[k]);
      }
    }
  }
}
