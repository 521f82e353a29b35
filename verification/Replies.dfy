/** What a peer of `run_sync_round` (src/p2p/mesh.rs) does with any message in any state, also
    those that an undisturbed round never brings: which it gives up on, and what it answers. */
module Replies {
  import opened Basics
  import opened Transactions
  import opened Graphs
  import opened Building
  import opened Dags
  import opened Reconciliation
  import opened Protocol

  /** A hash list of more than 4,096, or a body that carries relay proofs. */
  predicate Illegible(m: Message) {
    || (m.Inventory? && |m.inv.tips| + |m.inv.recent| > 4_096)
    || ((m.Have? || m.Need?) && |m.ids| > 4_096)
    || (m.Body? && m.tx.relayProofs != [])
  }

  /** What each read accepts: the greeting may cross, the responder may be met with an inventory,
      and the receive loop takes anything but an inventory. */
  predicate Expects(at: Place, m: Message) {
    && (at.AwaitPong? ==> m.Pong? || m.Ping?)
    && (at.AwaitPing? ==> m.Ping? || m.Inventory?)
    && (at.AwaitInventory? || at.AwaitTheirInventory? ==> m.Inventory?)
    && (at.AwaitNeed? || at.AwaitTheirNeed? ==> m.Need?)
    && (at.AwaitTheirHave? ==> m.Have?)
    && (at.Receiving? ==> !m.Inventory?)
  }

  /** A peer gives up exactly on what cannot be read or is not expected; it returns exactly on the
      Done it waits for; and only a body changes its node, as a wire accept does. */
  lemma OutcomesExact(p: Peer, m: Message)
    requires !p.at.Returned? && !p.at.Failed?
    ensures var q := React(p, m);
      && (q.at.Failed? <==> Illegible(m) || !Expects(p.at, m)) && (q.at.Failed? ==> q.outbox == [])
      && (q.at.Returned? <==> p.at.Receiving? && m.Done?)
      && q.dag == if p.at.Receiving? && m.Body? && !Illegible(m) then Accept(p.dag, m.tx).0 else p.dag
  {
    hide Accept, BodiesFor, NeedFrom, HaveFor, OwnInventory, ExtendNeed, Lacked;
  }

  // ------------------------------------------------------------------ bodies

  /** Position in attach order of the i-th body. */
  lemma {:induction false} BodyAt(g: Graph, want: set<TxHash>, n: nat, i: nat) returns (k: nat)
    requires OrderOk(g) && n <= |g.order| && i < |BodiesInOrder(g, want, n)|
    ensures k < n && g.order[k] in want && BodiesInOrder(g, want, n)[i] == g.vertices[g.order[k]]
    ensures BodiesInOrder(g, want, n)[i].id == g.order[k]
    ensures BodiesInOrder(g, want, n)[..i] == BodiesInOrder(g, want, k)
  {
    var p, all := BodiesInOrder(g, want, n - 1), BodiesInOrder(g, want, n);
    if i < |p| {
      k := BodyAt(g, want, n - 1, i);
      assert all[..i] == p[..i];
    } else {
      k := n - 1;
      assert all[..i] == p;
    }
  }

  lemma {:induction false} BodyFor(g: Graph, want: set<TxHash>, n: nat, k: nat) returns (i: nat)
    requires OrderOk(g) && k < n <= |g.order| && g.order[k] in want
    ensures i < |BodiesInOrder(g, want, n)| && BodiesInOrder(g, want, n)[i] == g.vertices[g.order[k]]
  {
    if k < n - 1 { i := BodyFor(g, want, n - 1, k); } else { i := |BodiesInOrder(g, want, n - 1)|; }
  }

  /** `x` was attached before `y`. */
  ghost predicate Before(order: seq<TxHash>, x: TxHash, y: TxHash) {
    exists i, j :: 0 <= i < j < |order| && order[i] == x && order[j] == y
  }

  /** Asked for any hashes, known or not, a node sends the stored bodies among them, each once,
      in attach order. */
  lemma BodiesAnswer(d: Dag, ids: seq<TxHash>)
    requires Grown(d.graph)
    ensures var vs, r := d.graph.vertices, BodiesFor(d, ids);
      && (forall i :: 0 <= i < |r| ==> r[i].id in ids && r[i].id in vs && r[i] == vs[r[i].id])
      && (forall h :: h in ids && h in vs ==> vs[h] in r)
      && (forall i, j :: 0 <= i < j < |r| ==> Before(d.graph.order, r[i].id, r[j].id))
  {
    GrownShaped(d.graph);
    var g, want, n, r := d.graph, ToSet(ids), |d.graph.order|, BodiesFor(d, ids);
    hide Grown, BodiesInOrder, ParentsFirst, ChildrenOk, TipsOk, OrderOk, Before;
    forall i | 0 <= i < |r| ensures r[i].id in ids && r[i].id in g.vertices && r[i] == g.vertices[r[i].id] {
      var k := BodyAt(g, want, n, i);
      StoredAt(g, k);
    }
    forall h | h in ids && h in g.vertices ensures g.vertices[h] in r { BodySent(g, want, h); }
    forall i, j | 0 <= i < j < |r| ensures Before(g.order, r[i].id, r[j].id) { BodiesOrdered(g, want, i, j); }
  }

  lemma StoredAt(g: Graph, k: nat)
    requires OrderOk(g) && k < |g.order|
    ensures g.order[k] in g.vertices
  {}

  lemma BodySent(g: Graph, want: set<TxHash>, h: TxHash)
    requires OrderOk(g) && h in want && h in g.vertices
    ensures g.vertices[h] in BodiesInOrder(g, want, |g.order|)
  {
    hide BodiesInOrder;
    assert h in ToSet(g.order);
    var k :| 0 <= k < |g.order| && g.order[k] == h;
    var i := BodyFor(g, want, |g.order|, k);
  }

  lemma BodiesOrdered(g: Graph, want: set<TxHash>, i: nat, j: nat)
    requires OrderOk(g) && i < j < |BodiesInOrder(g, want, |g.order|)|
    ensures var r := BodiesInOrder(g, want, |g.order|); Before(g.order, r[i].id, r[j].id)
  {
    hide BodiesInOrder, OrderOk;
    var r := BodiesInOrder(g, want, |g.order|);
    var l := BodyAt(g, want, |g.order|, j);
    assert r[..j][i] == r[i];
    var k := BodyAt(g, want, l, i);
  }

  lemma {:induction false} LackedIs(vs: Vertices, ids: seq<TxHash>)
    ensures ToSet(Lacked(vs, ids)) == ToSet(ids) - vs.Keys
  {
    if ids != [] {
      var p, id := ids[..|ids| - 1], ids[|ids| - 1];
      LackedIs(vs, p);
      assert ids == p + [id];
      assert ToSet(ids) == ToSet(p) + {id};
      if id !in vs { assert ToSet(Lacked(vs, p) + [id]) == ToSet(Lacked(vs, p)) + {id}; }
    }
  }

  // ----------------------------------------------------------------- answers

  /** A request for exactly `s`. */
  ghost predicate AsksFor(m: Message, s: set<TxHash>) { m.Need? && ToSet(m.ids) == s }

  /** The receive loop answers a request with the bodies, an offer with a request for what it
      lacks of it, if anything, a ping with a pong and a Done, on the accepting side, with its
      own; to a body or a pong it says nothing. */
  lemma LoopAnswers(d: Dag, thenDone: bool, m: Message)
    requires !Illegible(m) && !m.Inventory?
    ensures var out := React(Peer(d, Receiving(thenDone), []), m).outbox;
      match m
      case Need(ids) => out == Envelopes(BodiesFor(d, ids))
      case Have(ids) =>
        var lacked := ToSet(ids) - d.graph.vertices.Keys;
        if lacked == {} then out == [] else |out| == 1 && AsksFor(out[0], lacked)
      case Ping => out == [Pong]
      case Done => out == if thenDone then [Done] else []
      case _ => out == []
  {
    hide Accept, BodiesFor, Lacked;
    if m.Have? {
      LackedIs(d.graph.vertices, m.ids);
      assert ToSet(Lacked(d.graph.vertices, m.ids)) == {} <==> Lacked(d.graph.vertices, m.ids) == [] by {
        NoElements(Lacked(d.graph.vertices, m.ids));
      }
    }
  }

  lemma NoElements<T>(s: seq<T>)
    ensures ToSet(s) == {} <==> s == []
  {
    if s != [] { assert s[0] in ToSet(s); }
  }

  /** A responder that is met with an inventory answers with its own and a request for the need it
      sees in the other, and goes straight to the receive loop without a Done to send. */
  lemma InventoryFirst(d: Dag, inv: SyncInventory)
    requires |inv.tips| + |inv.recent| <= 4_096
    ensures var q := React(Peer(d, AwaitPing, []), Inventory(inv));
      && q.at == Receiving(false) && |q.outbox| == 2 && q.outbox[0] == Inventory(OwnInventory(d))
      && AsksFor(q.outbox[1], NeedSet(d.graph.vertices, inv))
  {
    hide NeedSet, InventoryOf;
  }
}
