/** `run_sync_round` (src/p2p/mesh.rs) as two sequential peers over FIFO channels.  A peer
    reads one message, updates its own graph and queues what it writes before its next
    read; every write and every read is a separate step of the interleaving. */
module Protocol {
  import opened Basics
  import opened Transactions
  import opened Graphs
  import opened Dags
  import opened Reconciliation

  const MAX_INVENTORY_HASHES: nat := 4_096

  datatype Message =
    | Ping
    | Pong
    | Inventory(inv: SyncInventory)
    | Have(ids: seq<TxHash>)
    | Need(ids: seq<TxHash>)
    | Body(tx: DagTransaction)
    | Done

  /** What `decode_wire` lets through: bounded hash lists, and no relay proofs in a body,
      because `from_canonical` does not read back what `canonical_bytes` writes for them. */
  predicate Readable(m: Message) {
    match m
    case Inventory(inv) => |inv.tips| + |inv.recent| <= MAX_INVENTORY_HASHES
    case Have(ids) => |ids| <= MAX_INVENTORY_HASHES
    case Need(ids) => |ids| <= MAX_INVENTORY_HASHES
    case Body(tx) => tx.relayProofs == []
    case _ => true
  }

  /** Where a peer stands: which read of the round it is blocked on. */
  datatype Place =
    | AwaitPong
    | AwaitInventory
    | AwaitNeed
    | AwaitPing
    | AwaitTheirInventory
    | AwaitTheirNeed(remote: SyncInventory)
    | AwaitTheirHave(remote: SyncInventory, theirNeed: seq<TxHash>)
    | Receiving(thenDone: bool)
    | Returned
    | Failed

  datatype Peer = Peer(dag: Dag, at: Place, outbox: seq<Message>)

  function Envelopes(txs: seq<DagTransaction>): (r: seq<Message>)
    ensures |r| == |txs| && forall i :: 0 <= i < |txs| ==> r[i] == Body(txs[i])
  {
    seq(|txs|, i requires 0 <= i < |txs| => Body(txs[i]))
  }

  /** `graph.inventory()`: advertised under the all-zero peer id. */
  function OwnInventory(d: Dag): SyncInventory { InventoryOf(d.graph, 0) }

  function BodiesFor(d: Dag, ids: seq<TxHash>): seq<DagTransaction> {
    BodiesInOrder(d.graph, ToSet(ids), |d.graph.order|)
  }

  ghost function NeedFrom(d: Dag, remote: SyncInventory): seq<TxHash> { Sorted(NeedSet(d.graph.vertices, remote)) }

  ghost function HaveFor(d: Dag, remote: SyncInventory): seq<TxHash> { Sorted(HaveSet(d.graph, Advertised(remote))) }

  /** The responder asks for offered hashes that it lacks and has not asked for yet. */
  function ExtendNeed(vs: Vertices, need: seq<TxHash>, have: seq<TxHash>): seq<TxHash> {
    if have == [] then need
    else
      var n, id := ExtendNeed(vs, need, have[..|have| - 1]), have[|have| - 1];
      if id in vs || id in n then n else n + [id]
  }

  function Lacked(vs: Vertices, ids: seq<TxHash>): seq<TxHash> {
    if ids == [] then []
    else
      var l, id := Lacked(vs, ids[..|ids| - 1]), ids[|ids| - 1];
      if id in vs then l else l + [id]
  }

  /** What a peer does with the message it reads. */
  ghost function React(p: Peer, m: Message): Peer {
    var d := p.dag;
    if !Readable(m) then Peer(d, Failed, [])
    else
      match p.at
      case AwaitPong =>
        if m.Pong? || m.Ping? then Peer(d, AwaitInventory, [Inventory(OwnInventory(d))]) else Peer(d, Failed, [])
      case AwaitInventory =>
        if m.Inventory? then Peer(d, AwaitNeed, [Need(NeedFrom(d, m.inv)), Have(HaveFor(d, m.inv))])
        else Peer(d, Failed, [])
      case AwaitNeed =>
        if m.Need? then Peer(d, Receiving(false), Envelopes(BodiesFor(d, m.ids)) + [Done]) else Peer(d, Failed, [])
      case AwaitPing =>
        if m.Ping? then Peer(d, AwaitTheirInventory, [Pong])
        else if m.Inventory? then Peer(d, Receiving(false), [Inventory(OwnInventory(d)), Need(NeedFrom(d, m.inv))])
        else Peer(d, Failed, [])
      case AwaitTheirInventory =>
        if m.Inventory? then Peer(d, AwaitTheirNeed(m.inv), [Inventory(OwnInventory(d))]) else Peer(d, Failed, [])
      case AwaitTheirNeed(remote) =>
        if m.Need? then Peer(d, AwaitTheirHave(remote, m.ids), []) else Peer(d, Failed, [])
      case AwaitTheirHave(remote, theirNeed) =>
        if m.Have? then
          Peer(d, Receiving(true),
               [Need(ExtendNeed(d.graph.vertices, NeedFrom(d, remote), m.ids))] + Envelopes(BodiesFor(d, theirNeed)))
        else Peer(d, Failed, [])
      case Receiving(thenDone) => Receive(d, thenDone, m)
      case _ => p
  }

  /** One round of `recv_bodies_until_done`. */
  ghost function Receive(d: Dag, thenDone: bool, m: Message): Peer {
    var here := Receiving(thenDone);
    match m
    case Body(tx) => Peer(Accept(d, tx).0, here, [])
    case Need(ids) => Peer(d, here, Envelopes(BodiesFor(d, ids)))
    case Have(ids) =>
      var lacked := Lacked(d.graph.vertices, ids);
      Peer(d, here, if lacked != [] then [Need(lacked)] else [])
    case Done => Peer(d, Returned, if thenDone then [Done] else [])
    case Ping => Peer(d, here, [Pong])
    case Pong => Peer(d, here, [])
    case Inventory(_) => Peer(d, Failed, [])
  }

  // --------------------------------------------------------- interleavings

  /** The connecting peer a, the accepting peer b and what is in flight towards each. */
  datatype World = World(a: Peer, b: Peer, toA: seq<Message>, toB: seq<Message>)

  datatype Move = WriteA | ReadA | WriteB | ReadB

  /** `run_sync_round` entered on both sides: the initiator's first write is pending. */
  function Start(a: Dag, b: Dag): World {
    World(Peer(a, AwaitPong, [Ping]), Peer(b, AwaitPing, []), [], [])
  }

  predicate CanRead(p: Peer, inbox: seq<Message>) {
    p.outbox == [] && !p.at.Returned? && !p.at.Failed? && inbox != []
  }

  predicate Enabled(w: World, move: Move) {
    match move
    case WriteA => w.a.outbox != []
    case ReadA => CanRead(w.a, w.toA)
    case WriteB => w.b.outbox != []
    case ReadB => CanRead(w.b, w.toB)
  }

  function Wrote(p: Peer): Peer
    requires p.outbox != []
  {
    p.(outbox := p.outbox[1..])
  }

  ghost function Next(w: World, move: Move): World
    requires Enabled(w, move)
  {
    match move
    case WriteA => w.(a := Wrote(w.a), toB := w.toB + [w.a.outbox[0]])
    case ReadA => w.(a := React(w.a, w.toA[0]), toA := w.toA[1..])
    case WriteB => w.(b := Wrote(w.b), toA := w.toA + [w.b.outbox[0]])
    case ReadB => w.(b := React(w.b, w.toB[0]), toB := w.toB[1..])
  }

  ghost predicate Moved(u: World, move: Move, v: World) {
    Enabled(u, move) && v == Next(u, move)
  }

  /** `moves` is an interleaving that can be taken from `w`, and `v` is where it leads. */
  ghost predicate Leads(w: World, moves: seq<Move>, v: World) {
    if moves == [] then v == w
    else
      var before, last := moves[..|moves| - 1], moves[|moves| - 1];
      exists u :: Moved(u, last, v) && Leads(w, before, u)
  }
}
