/** `run_sync_round` (src/p2p/mesh.rs) as it is written, reading from a given inbox and
    stopping where it would block; proved to do what the peer of Protocol does. */
module SyncPeer {
  import opened Basics
  import opened Graphs
  import opened Building
  import opened Dags
  import opened Engine
  import opened Reconciliation
  import opened Protocol

  /** A peer with nothing left to write, and everything it wrote. */
  datatype Transcript = Transcript(peer: Peer, sent: seq<Message>)

  /** Write what is queued. */
  function Flush(p: Peer, sent: seq<Message>): Transcript {
    Transcript(p.(outbox := []), sent + p.outbox)
  }

  /** `p` after reading the first n messages of `inbox`. */
  ghost function Played(p: Peer, inbox: seq<Message>, n: nat): Transcript
    requires n <= |inbox|
  {
    if n == 0 then Flush(p, [])
    else
      var t := Played(p, inbox, n - 1);
      if t.peer.at.Returned? || t.peer.at.Failed? then t else Flush(React(t.peer, inbox[n - 1]), t.sent)
  }

  lemma {:induction false} PlayedStops(p: Peer, inbox: seq<Message>, n: nat)
    requires n <= |inbox| && (Played(p, inbox, n).peer.at.Returned? || Played(p, inbox, n).peer.at.Failed?)
    ensures Played(p, inbox, |inbox|) == Played(p, inbox, n)
    decreases |inbox| - n
  {
    hide React;
    if n < |inbox| { PlayedStops(p, inbox, n + 1); }
  }

  /** Ids of offered bodies are digests, never the null parent. */
  ghost predicate Wellformed(inbox: seq<Message>) {
    forall i :: 0 <= i < |inbox| && inbox[i].Body? ==> inbox[i].tx.id != NULL_PARENT
  }

  method Extend(vs: Vertices, need: seq<TxHash>, have: seq<TxHash>) returns (out: seq<TxHash>)
    ensures out == ExtendNeed(vs, need, have)
  {
    out := need;
    for i := 0 to |have|
      invariant out == ExtendNeed(vs, need, have[..i])
    {
      assert have[..i + 1][..i] == have[..i];
      if have[i] !in vs && have[i] !in out {
        out := out + [have[i]];
      }
    }
    assert have[..|have|] == have;
  }

  method Missing(vs: Vertices, ids: seq<TxHash>) returns (out: seq<TxHash>)
    ensures out == Lacked(vs, ids)
  {
    out := [];
    for i := 0 to |ids|
      invariant out == Lacked(vs, ids[..i])
    {
      assert ids[..i + 1][..i] == ids[..i];
      if ids[i] !in vs {
        out := out + [ids[i]];
      }
    }
    assert ids[..|ids|] == ids;
  }

  /** One message of `recv_bodies_until_done`. */
  method ReceiveOne(dag: KronDag, thenDone: bool, m: Message) returns (at: Place, out: seq<Message>)
    requires dag.Valid() && (m.Body? ==> m.tx.id != NULL_PARENT)
    modifies dag
    ensures dag.Valid() && Peer(dag.View(), at, out) == Receive(old(dag.View()), thenDone, m)
  {
    hide Accept;
    at, out := Receiving(thenDone), [];
    match m
    case Body(tx) =>
      var _ := dag.AcceptWireVertex(tx);
    case Need(ids) =>
      var txs := dag.TransactionsForInOrder(ids);
      out := Envelopes(txs);
    case Have(ids) =>
      var missing := Missing(dag.vertices, ids);
      if missing != [] {
        out := [Need(missing)];
      }
    case Done =>
      at, out := Returned, if thenDone then [Done] else [];
    case Ping => out := [Pong];
    case Pong =>
    case Inventory(_) => at := Failed;
  }

  method ReceiveBodies(dag: KronDag, ghost p: Peer, inbox: seq<Message>, next: nat, thenDone: bool, sent0: seq<Message>)
    returns (at: Place, sent: seq<Message>)
    requires dag.Valid() && Wellformed(inbox) && next <= |inbox|
    requires Transcript(Peer(dag.View(), Receiving(thenDone), []), sent0) == Played(p, inbox, next)
    modifies dag
    ensures dag.Valid() && Transcript(Peer(dag.View(), at, []), sent) == Played(p, inbox, |inbox|)
  {
    hide Receive, React, Played, Readable;
    at, sent := Receiving(thenDone), sent0;
    for i := next to |inbox|
      invariant dag.Valid() && at == Receiving(thenDone)
      invariant Transcript(Peer(dag.View(), at, []), sent) == Played(p, inbox, i)
    {
      ReceivingStep(p, inbox, i, dag.View(), thenDone, sent);
      if !Readable(inbox[i]) {
        at := Failed;
        PlayedStops(p, inbox, i + 1);
        return;
      }
      var out;
      at, out := ReceiveOne(dag, thenDone, inbox[i]);
      sent := sent + out;
      if at != Receiving(thenDone) {
        PlayedStops(p, inbox, i + 1);
        return;
      }
    }
  }

  lemma ReceivingStep(p: Peer, inbox: seq<Message>, n: nat, d: Dag, thenDone: bool, sent: seq<Message>)
    requires n < |inbox| && Played(p, inbox, n) == Transcript(Peer(d, Receiving(thenDone), []), sent)
    ensures var q := if Readable(inbox[n]) then Receive(d, thenDone, inbox[n]) else Peer(d, Failed, []);
      && Played(p, inbox, n + 1) == Flush(q, sent)
      && (q.at == Receiving(thenDone) || q.at.Returned? || q.at.Failed?)
  {
    hide Receive, React, Readable;
    ReceivingReacts(d, thenDone, inbox[n]);
  }

  lemma ReceivingReacts(d: Dag, thenDone: bool, m: Message)
    ensures var q := React(Peer(d, Receiving(thenDone), []), m);
      && q == (if Readable(m) then Receive(d, thenDone, m) else Peer(d, Failed, []))
      && (q.at == Receiving(thenDone) || q.at.Returned? || q.at.Failed?)
  {
    hide Accept, Readable, Lacked, BodiesFor;
  }

  /** The next message, or why there is none. */
  datatype Heard = Blocked | Garbled | Heard(m: Message)

  function Hear(inbox: seq<Message>, n: nat): Heard {
    if n >= |inbox| then Blocked else if Readable(inbox[n]) then Heard(inbox[n]) else Garbled
  }

  /** The initiator's side. */
  method Initiate(dag: KronDag, inbox: seq<Message>) returns (at: Place, sent: seq<Message>)
    requires Grown(dag.GraphView()) && Wellformed(inbox)
    modifies dag
    ensures dag.Valid()
    ensures Transcript(Peer(dag.View(), at, []), sent)
          == Played(Peer(old(dag.View()), AwaitPong, [Ping]), inbox, |inbox|)
  {
    hide Receive, Grown, NeedSet, HaveSet, InventoryOf;
    ghost var p := Peer(dag.View(), AwaitPong, [Ping]);
    sent, at := [Ping], AwaitPong;
    match Hear(inbox, 0)
    case Blocked => return;
    case Garbled =>
      PlayedStops(p, inbox, 1);
      return Failed, sent;
    case Heard(m) =>
      if !m.Pong? && !m.Ping? {
        PlayedStops(p, inbox, 1);
        return Failed, sent;
      }
    var inv := FromDag(dag, 0);
    sent, at := sent + [Inventory(inv)], AwaitInventory;
    assert Transcript(Peer(dag.View(), at, []), sent) == Played(p, inbox, 1);
    at, sent := InitiateInventory(dag, p, inbox, sent);
  }

  method InitiateInventory(dag: KronDag, ghost p: Peer, inbox: seq<Message>, sent0: seq<Message>)
      returns (at: Place, sent: seq<Message>)
    requires Grown(dag.GraphView()) && Wellformed(inbox) && 1 <= |inbox|
    requires Transcript(Peer(dag.View(), AwaitInventory, []), sent0) == Played(p, inbox, 1)
    modifies dag
    ensures dag.Valid() && Transcript(Peer(dag.View(), at, []), sent) == Played(p, inbox, |inbox|)
  {
    hide Receive, Grown, NeedSet, HaveSet, InventoryOf;
    sent, at := sent0, AwaitInventory;
    match Hear(inbox, 1)
    case Blocked => return;
    case Garbled =>
      PlayedStops(p, inbox, 2);
      return Failed, sent;
    case Heard(m) =>
      if !m.Inventory? {
        PlayedStops(p, inbox, 2);
        return Failed, sent;
      }
      var need := CollectNeed(dag, m.inv);
      var have := CollectHave(dag, Advertised(m.inv));
      sent, at := sent + [Need(need), Have(have)], AwaitNeed;
    assert Transcript(Peer(dag.View(), at, []), sent) == Played(p, inbox, 2);
    at, sent := InitiateBodies(dag, p, inbox, sent);
  }

  method InitiateBodies(dag: KronDag, ghost p: Peer, inbox: seq<Message>, sent0: seq<Message>)
      returns (at: Place, sent: seq<Message>)
    requires dag.Valid() && Wellformed(inbox) && 2 <= |inbox|
    requires Transcript(Peer(dag.View(), AwaitNeed, []), sent0) == Played(p, inbox, 2)
    modifies dag
    ensures dag.Valid() && Transcript(Peer(dag.View(), at, []), sent) == Played(p, inbox, |inbox|)
  {
    hide Receive, Grown, NeedSet, HaveSet, InventoryOf;
    sent, at := sent0, AwaitNeed;
    match Hear(inbox, 2)
    case Blocked => return;
    case Garbled =>
      PlayedStops(p, inbox, 3);
      return Failed, sent;
    case Heard(m) =>
      if !m.Need? {
        PlayedStops(p, inbox, 3);
        return Failed, sent;
      }
      var txs := dag.TransactionsForInOrder(m.ids);
      sent := sent + (Envelopes(txs) + [Done]);
    at, sent := ReceiveBodies(dag, p, inbox, 3, false, sent);
  }

  /** The responder's side, `unexpected_as_inv` included. */
  method Respond(dag: KronDag, inbox: seq<Message>) returns (at: Place, sent: seq<Message>)
    requires Grown(dag.GraphView()) && Wellformed(inbox)
    modifies dag
    ensures dag.Valid()
    ensures Transcript(Peer(dag.View(), at, []), sent) == Played(Peer(old(dag.View()), AwaitPing, []), inbox, |inbox|)
  {
    hide Receive, Grown, NeedSet, HaveSet, InventoryOf;
    ghost var p := Peer(dag.View(), AwaitPing, []);
    sent, at := [], AwaitPing;
    match Hear(inbox, 0)
    case Blocked => return;
    case Garbled =>
      PlayedStops(p, inbox, 1);
      return Failed, sent;
    case Heard(m) =>
      if m.Inventory? {
        var inv := FromDag(dag, 0);
        var need := CollectNeed(dag, m.inv);
        sent := sent + [Inventory(inv), Need(need)];
        at, sent := ReceiveBodies(dag, p, inbox, 1, false, sent);
        return;
      }
      if !m.Ping? {
        PlayedStops(p, inbox, 1);
        return Failed, sent;
      }
    sent, at := sent + [Pong], AwaitTheirInventory;
    assert Transcript(Peer(dag.View(), at, []), sent) == Played(p, inbox, 1);
    at, sent := RespondToInventory(dag, p, inbox, sent);
  }

  method RespondToInventory(dag: KronDag, ghost p: Peer, inbox: seq<Message>, sent0: seq<Message>)
      returns (at: Place, sent: seq<Message>)
    requires Grown(dag.GraphView()) && Wellformed(inbox) && 1 <= |inbox|
    requires Transcript(Peer(dag.View(), AwaitTheirInventory, []), sent0) == Played(p, inbox, 1)
    modifies dag
    ensures dag.Valid() && Transcript(Peer(dag.View(), at, []), sent) == Played(p, inbox, |inbox|)
  {
    hide Receive, Grown, NeedSet, HaveSet, InventoryOf;
    sent, at := sent0, AwaitTheirInventory;
    var remote;
    match Hear(inbox, 1)
    case Blocked => return;
    case Garbled =>
      PlayedStops(p, inbox, 2);
      return Failed, sent;
    case Heard(m) =>
      if !m.Inventory? {
        PlayedStops(p, inbox, 2);
        return Failed, sent;
      }
      remote := m.inv;
    var inv := FromDag(dag, 0);
    sent, at := sent + [Inventory(inv)], AwaitTheirNeed(remote);
    assert Transcript(Peer(dag.View(), at, []), sent) == Played(p, inbox, 2);
    var theirNeed;
    match Hear(inbox, 2)
    case Blocked => return;
    case Garbled =>
      PlayedStops(p, inbox, 3);
      return Failed, sent;
    case Heard(m) =>
      if !m.Need? {
        PlayedStops(p, inbox, 3);
        return Failed, sent;
      }
      theirNeed := m.ids;
    at := AwaitTheirHave(remote, theirNeed);
    assert Transcript(Peer(dag.View(), at, []), sent) == Played(p, inbox, 3);
    at, sent := RespondToHave(dag, p, inbox, remote, theirNeed, sent);
  }

  method RespondToHave(dag: KronDag, ghost p: Peer, inbox: seq<Message>, remote: SyncInventory,
                       theirNeed: seq<TxHash>, sent0: seq<Message>)
    returns (at: Place, sent: seq<Message>)
    requires Grown(dag.GraphView()) && Wellformed(inbox) && 3 <= |inbox|
    requires Transcript(Peer(dag.View(), AwaitTheirHave(remote, theirNeed), []), sent0) == Played(p, inbox, 3)
    modifies dag
    ensures dag.Valid() && Transcript(Peer(dag.View(), at, []), sent) == Played(p, inbox, |inbox|)
  {
    hide Receive, Grown, NeedSet, HaveSet, InventoryOf;
    sent, at := sent0, AwaitTheirHave(remote, theirNeed);
    match Hear(inbox, 3)
    case Blocked => return;
    case Garbled =>
      PlayedStops(p, inbox, 4);
      return Failed, sent;
    case Heard(m) =>
      if !m.Have? {
        PlayedStops(p, inbox, 4);
        return Failed, sent;
      }
      var need := CollectNeed(dag, remote);
      need := Extend(dag.vertices, need, m.ids);
      var txs := dag.TransactionsForInOrder(theirNeed);
      sent := sent + ([Need(need)] + Envelopes(txs));
    at, sent := ReceiveBodies(dag, p, inbox, 4, true, sent);
  }
}
