/** Every interleaving of one sync round.  A body that carries relay proofs cannot be read, and
    stops the peer it is sent to; without one there is no unexpected message and no deadlock,
    and both replicas end with the union. */
module SyncRound {
  import opened Basics
  import opened Transactions
  import opened Graphs
  import opened Building
  import opened Ancestry
  import opened History
  import opened Dags
  import opened Settlement
  import opened Steps
  import opened Runs
  import opened Safety
  import opened Reconciliation
  import opened Ingestion
  import opened Protocol

  /** How many messages can be read before the first that cannot. */
  function Leading(ms: seq<Message>): (n: nat)
    ensures n <= |ms| && (forall i :: 0 <= i < n ==> Readable(ms[i])) && (n < |ms| ==> !Readable(ms[n]))
  {
    if ms == [] || !Readable(ms[0]) then 0 else 1 + Leading(ms[1..])
  }

  /** Everything the two peers will say, fixed by their graphs at the start. */
  datatype Script = Script(
    invA: SyncInventory, needA: seq<TxHash>, haveA: seq<TxHash>, fromA: seq<DagTransaction>,
    invB: SyncInventory, needB: seq<TxHash>, fromB: seq<DagTransaction>)
  {
    function Initiator(): seq<Message> {
      [Ping, Inventory(invA), Need(needA), Have(haveA)] + Envelopes(fromA) + [Done]
    }

    function Responder(): seq<Message> {
      [Pong, Inventory(invB), Need(needB)] + Envelopes(fromB) + [Done]
    }

    function LenA(): nat { |fromA| + 5 }

    function LenB(): nat { |fromB| + 4 }

    /** The message at which the responder, or the initiator, gives up reading. */
    function StopA(): nat { Leading(Initiator()) }

    function StopB(): nat { Leading(Responder()) }

    /** How many messages the initiator has composed after `r` reads. */
    function DueA(r: nat): nat {
      if r == 0 then 1 else if r == 1 then 2 else if r == 2 then 4 else LenA()
    }

    function DueB(r: nat): nat {
      var n := Lesser(r, StopA());
      if n == 0 then 0 else if n == 1 then 1 else if n <= 3 then 2 else if n < LenA() then LenB() - 1 else LenB()
    }

    function PlaceA(r: nat): Place {
      if r > StopB() then Failed
      else if r == 0 then AwaitPong else if r == 1 then AwaitInventory else if r == 2 then AwaitNeed
      else if r < LenB() then Receiving(false) else Returned
    }

    function PlaceB(r: nat): Place {
      if r > StopA() then Failed
      else if r == 0 then AwaitPing else if r == 1 then AwaitTheirInventory else if r == 2 then AwaitTheirNeed(invA)
      else if r == 3 then AwaitTheirHave(invA, needA) else if r < LenA() then Receiving(true) else Returned
    }
  }

  ghost function ScriptOf(a: Dag, b: Dag): Script {
    var needA, haveA := NeedFrom(a, OwnInventory(b)), HaveFor(a, OwnInventory(b));
    var needB := ExtendNeed(b.graph.vertices, NeedFrom(b, OwnInventory(a)), haveA);
    Script(OwnInventory(a), needA, haveA, BodiesFor(a, needB), OwnInventory(b), needB, BodiesFor(b, needA))
  }

  function Clamp(n: int, max: nat): (r: nat)
    ensures r <= max
  {
    if n < 0 then 0 else if n > max then max else n
  }

  /** The initiator after `r` reads, `s` of its messages written. */
  ghost function PeerA(a: Dag, sc: Script, r: nat, s: nat): Peer
    requires s <= sc.DueA(r)
  {
    Peer(Ingest(a, sc.fromB[..Clamp(Lesser(r, sc.StopB()) - 3, |sc.fromB|)]), sc.PlaceA(r),
         sc.Initiator()[s..sc.DueA(r)])
  }

  ghost function PeerB(b: Dag, sc: Script, r: nat, s: nat): Peer
    requires s <= sc.DueB(r)
  {
    Peer(Ingest(b, sc.fromA[..Clamp(Lesser(r, sc.StopA()) - 4, |sc.fromA|)]), sc.PlaceB(r),
         sc.Responder()[s..sc.DueB(r)])
  }

  /** Messages written and read so far by each peer. */
  datatype Progress = Progress(sentA: nat, readA: nat, sentB: nat, readB: nat)
  {
    function Total(): nat { sentA + readA + sentB + readB }
  }

  /** The whole world is a function of the four counters. */
  ghost predicate Reached(a: Dag, b: Dag, sc: Script, p: Progress, w: World) {
    && p.readA <= p.sentB <= sc.DueB(p.readB) && p.readB <= p.sentA <= sc.DueA(p.readA)
    && p.readA <= sc.StopB() + 1 && p.readB <= sc.StopA() + 1
    && w.a == PeerA(a, sc, p.readA, p.sentA) && w.b == PeerB(b, sc, p.readB, p.sentB)
    && w.toA == sc.Responder()[p.readA..p.sentB] && w.toB == sc.Initiator()[p.readB..p.sentA]
  }

  /** The script of two peers whose requests and inventories can be read. */
  ghost predicate Plays(a: Dag, b: Dag, sc: Script) {
    sc == ScriptOf(a, b) && sc.StopA() >= 4 && sc.StopB() >= 3
  }

  /** Reading the responder's r-th message takes the initiator from one scripted state to
      the next. */
  ghost predicate ScriptedA(a: Dag, sc: Script, r: nat)
    requires r < sc.LenB()
  {
    React(PeerA(a, sc, r, sc.DueA(r)), sc.Responder()[r]) == PeerA(a, sc, r + 1, sc.DueA(r))
  }

  ghost predicate ScriptedB(b: Dag, sc: Script, r: nat)
    requires r < sc.LenA()
  {
    React(PeerB(b, sc, r, sc.DueB(r)), sc.Initiator()[r]) == PeerB(b, sc, r + 1, sc.DueB(r))
  }

  // -------------------------------------------------------- one read each

  lemma IngestNext(d: Dag, txs: seq<DagTransaction>, k: nat)
    requires k < |txs|
    ensures Ingest(d, txs[..k + 1]) == Accept(Ingest(d, txs[..k]), txs[k]).0
  {
    assert txs[..k + 1][..k] == txs[..k];
  }

  lemma NothingIngested(d: Dag, txs: seq<DagTransaction>)
    ensures Ingest(d, txs[..0]) == d
  {}

  /** The initiator reacts to the responder's r-th message as scripted. */
  lemma ReactsA(a: Dag, b: Dag, sc: Script, r: nat)
    requires Plays(a, b, sc) && r < sc.LenB() && r <= sc.StopB()
    ensures ScriptedA(a, sc, r)
  {
    hide ScriptOf, Readable, ScriptedA, Leading;
    if r == sc.StopB() { StopsA(a, sc, r); }
    else if r < 3 { OpensA(a, b, sc, r); }
    else { ReceivesA(a, sc, r); }
  }

  /** A message that cannot be read ends the initiator's round. */
  lemma StopsA(a: Dag, sc: Script, r: nat)
    requires 3 <= r == sc.StopB() < sc.LenB()
    ensures ScriptedA(a, sc, r)
  {
    hide Accept, Ingest, Readable, Leading;
    assert sc.Initiator()[sc.LenA()..sc.LenA()] == [];
  }

  lemma OpensA(a: Dag, b: Dag, sc: Script, r: nat)
    requires Plays(a, b, sc) && r < 3 && Readable(sc.Responder()[r])
    ensures ScriptedA(a, sc, r)
  {
    hide Leading, Accept, Ingest, BodiesFor, NeedFrom, HaveFor, OwnInventory, ExtendNeed, Readable, Receive;
    var script := sc.Initiator();
    NothingIngested(a, sc.fromB);
    if r == 0 {
      assert script[1..2] == [Inventory(sc.invA)];
    } else if r == 1 {
      assert script[2..4] == [Need(sc.needA), Have(sc.haveA)];
    } else {
      assert script[4..sc.LenA()] == Envelopes(sc.fromA) + [Done];
    }
  }

  lemma ReceivesA(a: Dag, sc: Script, r: nat)
    requires 3 <= r < sc.LenB() && r < sc.StopB()
    ensures ScriptedA(a, sc, r)
  {
    hide Leading, Accept, Ingest, Readable, BodiesFor;
    if r < sc.LenB() - 1 {
      assert sc.Responder()[r] == Body(sc.fromB[r - 3]);
      IngestNext(a, sc.fromB, r - 3);
    } else {
      assert sc.Responder()[r] == Done;
    }
  }

  lemma ReactsB(a: Dag, b: Dag, sc: Script, r: nat)
    requires Plays(a, b, sc) && r < sc.LenA() && r <= sc.StopA()
    ensures ScriptedB(b, sc, r)
  {
    hide ScriptOf, Readable, ScriptedB, Leading;
    if r == sc.StopA() { StopsB(b, sc, r); }
    else if r < 4 { OpensB(a, b, sc, r); }
    else { ReceivesB(b, sc, r); }
  }

  lemma StopsB(b: Dag, sc: Script, r: nat)
    requires 4 <= r == sc.StopA() < sc.LenA()
    ensures ScriptedB(b, sc, r)
  {
    hide Accept, Ingest, Readable, Leading;
    assert sc.Responder()[sc.DueB(r)..sc.DueB(r)] == [];
  }

  lemma OpensB(a: Dag, b: Dag, sc: Script, r: nat)
    requires Plays(a, b, sc) && r < 4 && Readable(sc.Initiator()[r])
    ensures ScriptedB(b, sc, r)
  {
    hide Leading, Accept, Ingest, BodiesFor, NeedFrom, HaveFor, OwnInventory, ExtendNeed, Readable, Receive;
    var script := sc.Responder();
    NothingIngested(b, sc.fromA);
    if r == 0 {
      assert script[0..1] == [Pong];
    } else if r == 1 {
      assert script[1..2] == [Inventory(sc.invB)];
    } else if r == 2 {
      assert script[2..2] == [];
    } else {
      assert script[2..sc.LenB() - 1] == [Need(sc.needB)] + Envelopes(sc.fromB);
    }
  }

  lemma LastWord(sc: Script)
    ensures sc.Responder()[sc.LenB() - 1..sc.LenB()] == [Done]
  {
    var script := sc.Responder();
    assert |script| == sc.LenB() && script[sc.LenB() - 1] == Done;
  }

  lemma ReceivesB(b: Dag, sc: Script, r: nat)
    requires 4 <= r < sc.LenA() && r < sc.StopA()
    ensures ScriptedB(b, sc, r)
  {
    hide Leading, Accept, Ingest, Readable, BodiesFor;
    if r < sc.LenA() - 1 {
      assert sc.Initiator()[r] == Body(sc.fromA[r - 4]);
      IngestNext(b, sc.fromA, r - 4);
    } else {
      assert sc.Initiator()[r] == Done;
      LastWord(sc);
    }
  }

  // ---------------------------------------------------------------- moves

  /** Every enabled move stays on script and advances one counter by one. */
  lemma MoveKeeps(a: Dag, b: Dag, sc: Script, p: Progress, w: World, move: Move, v: World) returns (q: Progress)
    requires Plays(a, b, sc) && Reached(a, b, sc, p, w) && Moved(w, move, v)
    ensures Reached(a, b, sc, q, v) && q.Total() == p.Total() + 1
  {
    hide ScriptOf, React, Ingest, Leading;
    match move
    case WriteA => q := WritesA(a, b, sc, p, w, v);
    case ReadA => q := ReadsA(a, b, sc, p, w, v);
    case WriteB => q := WritesB(a, b, sc, p, w, v);
    case ReadB => q := ReadsB(a, b, sc, p, w, v);
  }

  /** One message moves from the front of what is due to the end of what is in flight. */
  lemma SliceMore<T>(s: seq<T>, i: nat, j: nat, k: nat)
    requires i <= j < k <= |s|
    ensures s[i..j] + [s[j]] == s[i..j + 1] && s[j..k][0] == s[j] && s[j..k][1..] == s[j + 1..k]
  {}

  lemma WritesA(a: Dag, b: Dag, sc: Script, p: Progress, w: World, v: World) returns (q: Progress)
    requires Plays(a, b, sc) && Reached(a, b, sc, p, w) && Moved(w, WriteA, v)
    ensures Reached(a, b, sc, q, v) && q.Total() == p.Total() + 1
  {
    hide ScriptOf, React, Ingest, Leading;
    q := p.(sentA := p.sentA + 1);
    hide Lesser;
    SliceMore(sc.Initiator(), p.readB, p.sentA, sc.DueA(p.readA));
  }

  lemma WritesB(a: Dag, b: Dag, sc: Script, p: Progress, w: World, v: World) returns (q: Progress)
    requires Plays(a, b, sc) && Reached(a, b, sc, p, w) && Moved(w, WriteB, v)
    ensures Reached(a, b, sc, q, v) && q.Total() == p.Total() + 1
  {
    hide ScriptOf, React, Ingest, Leading;
    q := p.(sentB := p.sentB + 1);
    hide Lesser;
    SliceMore(sc.Responder(), p.readA, p.sentB, sc.DueB(p.readB));
  }

  lemma ReadsA(a: Dag, b: Dag, sc: Script, p: Progress, w: World, v: World) returns (q: Progress)
    requires Plays(a, b, sc) && Reached(a, b, sc, p, w) && Moved(w, ReadA, v)
    ensures Reached(a, b, sc, q, v) && q.Total() == p.Total() + 1
  {
    hide ScriptOf, React, Ingest, Leading;
    q := p.(readA := p.readA + 1);
    assert p.sentA == sc.DueA(p.readA);
    ReactsA(a, b, sc, p.readA);
  }

  lemma ReadsB(a: Dag, b: Dag, sc: Script, p: Progress, w: World, v: World) returns (q: Progress)
    requires Plays(a, b, sc) && Reached(a, b, sc, p, w) && Moved(w, ReadB, v)
    ensures Reached(a, b, sc, q, v) && q.Total() == p.Total() + 1
  {
    hide ScriptOf, React, Ingest, Leading;
    q := p.(readB := p.readB + 1);
    assert p.sentB == sc.DueB(p.readB);
    ReactsB(a, b, sc, p.readB);
  }

  lemma {:induction false} LeadsOnScript(a: Dag, b: Dag, sc: Script, moves: seq<Move>, w: World) returns (p: Progress)
    requires Plays(a, b, sc) && Leads(Start(a, b), moves, w)
    ensures Reached(a, b, sc, p, w) && p.Total() == |moves|
  {
    hide ScriptOf, Next, Moved, Reached;
    if moves == [] {
      p := Progress(0, 0, 0, 0);
      StartReached(a, b, sc);
    } else {
      var n := |moves| - 1;
      var u :| Moved(u, moves[n], w) && Leads(Start(a, b), moves[..n], u);
      p := LeadsOnScript(a, b, sc, moves[..n], u);
      p := MoveKeeps(a, b, sc, p, u, moves[n], w);
    }
  }

  lemma StartReached(a: Dag, b: Dag, sc: Script)
    requires Plays(a, b, sc)
    ensures Reached(a, b, sc, Progress(0, 0, 0, 0), Start(a, b))
  {
    hide ScriptOf, Leading, Ingest;
    NothingIngested(a, sc.fromB);
    NothingIngested(b, sc.fromA);
    assert sc.Initiator()[0..1] == [Ping];
  }

  ghost predicate Finished(w: World) {
    w.a.at.Returned? && w.b.at.Returned? && w.a.outbox == [] && w.b.outbox == [] && w.toA == [] && w.toB == []
  }

  ghost predicate Stuck(w: World) {
    forall move :: !Enabled(w, move)
  }

  /** All of what the initiator, or the responder, says can be read. */
  ghost predicate ReadsAll(sc: Script) { sc.StopA() == sc.LenA() && sc.StopB() == sc.LenB() }

  /** On script, a world that cannot move is one where each peer has failed exactly if something
      it was sent cannot be read, and one where both have returned exactly if all can be. */
  lemma StuckExact(a: Dag, b: Dag, sc: Script, p: Progress, w: World)
    requires Plays(a, b, sc) && Reached(a, b, sc, p, w)
    ensures w.a.at.Failed? ==> sc.StopB() < sc.LenB()
    ensures w.b.at.Failed? ==> sc.StopA() < sc.LenA()
    ensures Stuck(w) ==> (w.a.at.Failed? <==> sc.StopB() < sc.LenB()) && (w.b.at.Failed? <==> sc.StopA() < sc.LenA())
    ensures Finished(w) ==> Stuck(w) && p.readA == sc.LenB() && p.readB == sc.LenA()
    ensures Stuck(w) ==> (Finished(w) <==> ReadsAll(sc))
    ensures p.Total() <= 2 * (sc.LenA() + sc.LenB())
    ensures Finished(w) <==> p.Total() == 2 * (sc.LenA() + sc.LenB())
  {
    WorldCounts(a, b, sc, p, w);
    NeverLast(sc);
    hide Reached, Stuck, Finished, Leading, ScriptOf;
    StillExact(sc, p);
  }

  /** The counters when nothing can move. */
  ghost predicate Still(sc: Script, p: Progress) {
    && p.sentA == sc.DueA(p.readA) && p.sentB == sc.DueB(p.readB)
    && (p.readA == p.sentB || p.readA > sc.StopB() || p.readA >= sc.LenB())
    && (p.readB == p.sentA || p.readB > sc.StopA() || p.readB >= sc.LenA())
  }

  /** The counters when all is said and read. */
  ghost predicate Ended(sc: Script, p: Progress) {
    && p.sentA == sc.DueA(p.readA) == p.readB && p.sentB == sc.DueB(p.readB) == p.readA
    && sc.LenB() <= p.readA <= sc.StopB() && sc.LenA() <= p.readB <= sc.StopA()
  }

  /** What the world shows is in the counters. */
  lemma WorldCounts(a: Dag, b: Dag, sc: Script, p: Progress, w: World)
    requires Reached(a, b, sc, p, w)
    ensures w.a.at.Failed? <==> p.readA > sc.StopB()
    ensures w.b.at.Failed? <==> p.readB > sc.StopA()
    ensures Stuck(w) <==> Still(sc, p)
    ensures Finished(w) <==> Ended(sc, p)
    ensures OnCount(sc, p)
  {
    hide Ingest, Leading, Lesser;
    assert Stuck(w) <==> !Enabled(w, WriteA) && !Enabled(w, ReadA) && !Enabled(w, WriteB) && !Enabled(w, ReadB);
  }

  /** The bounds that the counters keep. */
  ghost predicate OnCount(sc: Script, p: Progress) {
    && p.readA <= p.sentB <= sc.DueB(p.readB) && p.readB <= p.sentA <= sc.DueA(p.readA)
    && p.readA <= sc.StopB() + 1 && p.readB <= sc.StopA() + 1
  }

  lemma StillExact(sc: Script, p: Progress)
    requires OnCount(sc, p) && 4 <= sc.StopA() <= sc.LenA() && 3 <= sc.StopB() <= sc.LenB()
    requires sc.StopA() != sc.LenA() - 1 && sc.StopB() != sc.LenB() - 1
    ensures p.readA > sc.StopB() ==> sc.StopB() < sc.LenB()
    ensures p.readB > sc.StopA() ==> sc.StopA() < sc.LenA()
    ensures Still(sc, p) ==>
      (p.readA > sc.StopB() <==> sc.StopB() < sc.LenB()) && (p.readB > sc.StopA() <==> sc.StopA() < sc.LenA())
    ensures Ended(sc, p) ==> Still(sc, p) && p.readA == sc.LenB() && p.readB == sc.LenA()
    ensures Still(sc, p) ==> (Ended(sc, p) <==> ReadsAll(sc))
    ensures p.Total() <= 2 * (sc.LenA() + sc.LenB())
    ensures Ended(sc, p) <==> p.Total() == 2 * (sc.LenA() + sc.LenB())
  {
    hide Leading;
  }

  /** The closing word itself can always be read. */
  lemma NeverLast(sc: Script)
    ensures sc.StopA() != sc.LenA() - 1 && sc.StopB() != sc.LenB() - 1
    ensures sc.StopA() <= sc.LenA() && sc.StopB() <= sc.LenB()
  {
    hide Leading;
    assert sc.Initiator()[sc.LenA() - 1] == Done && sc.Responder()[sc.LenB() - 1] == Done;
  }

  // ------------------------------------------------------- what is on script

  /** A node that can take part in a round: the invariant, and an inventory within the wire bound. */
  ghost predicate Replica(d: Dag, e: nat, u: set<TxHash>) {
    Inv(d, e, u) && |d.graph.tips| + |d.graph.order| <= MAX_INVENTORY_HASHES + 1
  }

  /** These bodies carry no relay proofs. */
  ghost predicate Unproven(d: Dag, want: set<TxHash>) {
    forall h {:trigger d.graph.vertices[h]} :: h in d.graph.vertices && h in want ==>
      d.graph.vertices[h].relayProofs == []
  }

  /** The bodies the other side lacks carry no relay proofs. */
  ghost predicate Sendable(d: Dag, other: Dag) {
    Unproven(d, Wanted(other, d.graph))
  }

  /** What the initiator asks for: what the responder advertises and it lacks. */
  ghost function Asked(a: Dag, b: Dag): set<TxHash> {
    set h | h in Advertised(OwnInventory(b)) && h in b.graph.vertices && h !in a.graph.vertices
  }

  /** Offers that are stored or already asked for add nothing to a request. */
  lemma {:induction false} ExtendNothing(vs: Vertices, need: seq<TxHash>, have: seq<TxHash>)
    requires forall i :: 0 <= i < |have| ==> have[i] in vs || have[i] in need
    ensures ExtendNeed(vs, need, have) == need
  {
    if have != [] { ExtendNothing(vs, need, have[..|have| - 1]); }
  }

  /** An inventory, and any request or offer made from it, stays within the wire bound. */
  lemma InventoryReadable(d: Dag, e: nat, u: set<TxHash>)
    requires Replica(d, e, u)
    ensures Readable(Inventory(OwnInventory(d))) && |d.graph.vertices.Keys - {d.graph.genesis}| <= MAX_INVENTORY_HASHES
  {
    hide TipsFit, Settled, Grown, AllOffered, Recent, Shaped, Closure;
    GrownShaped(d.graph);
    RecentStored(d.graph);
    SubsetSmaller(Recent(d.graph, d.graph.tips), d.graph.vertices.Keys - {d.graph.genesis});
    assert |d.graph.vertices.Keys| == |d.graph.vertices|;
  }

  /** The initiator asks for what is advertised, the responder for everything it lacks. */
  ghost predicate Exact(a: Dag, b: Dag, sc: Script) {
    && ToSet(sc.needA) == Asked(a, b) && ToSet(sc.needB) == Wanted(b, a.graph)
    && ToSet(sc.haveA) <= a.graph.vertices.Keys - {a.graph.genesis}
    && NoDup(sc.needA) && NoDup(sc.needB) && NoDup(sc.haveA)
  }

  lemma SortedNoDup(s: set<nat>)
    ensures NoDup(Sorted(s)) && ToSet(Sorted(s)) == s
  {
    hide Sorted;
  }

  lemma AskedExact(a: Dag, b: Dag)
    requires Grown(a.graph) && Grown(b.graph)
    ensures NeedSet(a.graph.vertices, OwnInventory(b)) == Asked(a, b)
  {
    hide Grown, NeedSet, Advertised, InventoryOf;
    NeedAdvertised(a.graph, OwnInventory(b));
    InventoryAdvertises(b.graph, 0);
    NullNotStored(b.graph);
  }

  /** What the responder asks for in the end: what was advertised to it and what was offered. */
  lemma {:induction false} ExtendSet(vs: Vertices, need: seq<TxHash>, have: seq<TxHash>)
    requires NoDup(need)
    ensures NoDup(ExtendNeed(vs, need, have))
    ensures ToSet(ExtendNeed(vs, need, have)) == ToSet(need) + (ToSet(have) - vs.Keys)
  {
    if have != [] {
      var p, id := have[..|have| - 1], have[|have| - 1];
      ExtendSet(vs, need, p);
      assert have == p + [id];
      assert ToSet(have) == ToSet(p) + {id};
      var n := ExtendNeed(vs, need, p);
      if id !in vs && id !in n { AppendFresh(n, id); }
      assert id in n <==> id in ToSet(n);
    }
  }

  lemma AppendFresh(n: seq<TxHash>, id: TxHash)
    requires NoDup(n) && id !in n
    ensures NoDup(n + [id]) && ToSet(n + [id]) == ToSet(n) + {id}
  {}

  /** Nodes that agree on the parents of what both store: then the offer makes the responder's
      request whole, however much its own inventory or the initiator's leaves out. */
  lemma RequestsWhole(a: Dag, e: nat, u: set<TxHash>, b: Dag, f: nat, v: set<TxHash>)
    requires Replica(a, e, u) && Replica(b, f, v) && a.graph.genesis == b.graph.genesis
    requires SameParents(a.graph.vertices, b.graph.vertices)
    ensures Exact(a, b, ScriptOf(a, b))
  {
    var sc := ScriptOf(a, b);
    hide Settled, Grown, AllOffered, NeedSet, HaveSet, InventoryOf, Advertised, ExtendNeed, Sorted;
    hide BodiesInOrder, SameParents, Asked, NoDup;
    AskedExact(a, b);
    SortedNoDup(NeedSet(a.graph.vertices, OwnInventory(b)));
    OfferCovers(a, b, sc.haveA);
    OfferCompletes(a, b, NeedFrom(b, OwnInventory(a)), sc.haveA);
  }

  /** The offer names all that the responder lacks. */
  lemma OfferCovers(a: Dag, b: Dag, have: seq<TxHash>)
    requires Grown(a.graph) && Grown(b.graph) && a.graph.genesis == b.graph.genesis
    requires SameParents(a.graph.vertices, b.graph.vertices) && have == HaveFor(a, OwnInventory(b))
    ensures NoDup(have)
    ensures a.graph.vertices.Keys - b.graph.vertices.Keys <= ToSet(have) <= a.graph.vertices.Keys - {a.graph.genesis}
  {
    hide Grown, HaveSet, InventoryOf, Advertised, Sorted, SameParents;
    HaveCovers(a.graph, b.graph, 0);
    HaveIsOpen(a.graph, Advertised(InventoryOf(b.graph, 0)));
    SortedNoDup(HaveSet(a.graph, Advertised(OwnInventory(b))));
  }

  /** So with it the request is whole. */
  lemma OfferCompletes(a: Dag, b: Dag, need: seq<TxHash>, have: seq<TxHash>)
    requires Grown(a.graph) && Grown(b.graph) && need == NeedFrom(b, OwnInventory(a))
    requires a.graph.vertices.Keys - b.graph.vertices.Keys <= ToSet(have) <= a.graph.vertices.Keys
    ensures NoDup(ExtendNeed(b.graph.vertices, need, have))
    ensures ToSet(ExtendNeed(b.graph.vertices, need, have)) == Wanted(b, a.graph)
  {
    hide Grown, NeedSet, InventoryOf, Advertised, Sorted, ExtendNeed, NoDup;
    AskedExact(b, a);
    SortedNoDup(NeedSet(b.graph.vertices, OwnInventory(a)));
    ExtendSet(b.graph.vertices, need, have);
  }

  lemma OffersKnown(a: Dag, b: Dag, need: seq<TxHash>, have: seq<TxHash>)
    requires ToSet(have) <= a.graph.vertices.Keys && ToSet(need) == a.graph.vertices.Keys - b.graph.vertices.Keys
    ensures forall i :: 0 <= i < |have| ==> have[i] in b.graph.vertices || have[i] in need
  {
    forall i | 0 <= i < |have| ensures have[i] in b.graph.vertices || have[i] in need {
      assert have[i] in ToSet(have);
      assert have[i] in b.graph.vertices || have[i] in ToSet(need);
    }
  }

  /** Within the closure bound both requests are the whole difference, and the offer adds nothing
      to the responder's. */
  lemma RequestsExact(a: Dag, e: nat, u: set<TxHash>, b: Dag, f: nat, v: set<TxHash>)
    requires Replica(a, e, u) && Replica(b, f, v) && a.graph.genesis == b.graph.genesis
    requires TipsFit(a.graph) && TipsFit(b.graph)
    ensures Exact(a, b, ScriptOf(a, b)) && Asked(a, b) == Wanted(a, b.graph)
    ensures ScriptOf(a, b).needB == NeedFrom(b, OwnInventory(a))
  {
    var sc := ScriptOf(a, b);
    hide TipsFit, Settled, Grown, AllOffered, NeedSet, HaveSet, InventoryOf, Advertised, ExtendNeed;
    hide Sorted, BodiesInOrder, Asked;
    AskedExact(a, b);
    NeedExact(a.graph, b.graph, 0);
    NeedExact(b.graph, a.graph, 0);
    HaveIsOpen(a.graph, Advertised(InventoryOf(b.graph, 0)));
    SortedNoDup(NeedSet(a.graph.vertices, OwnInventory(b)));
    SortedNoDup(NeedSet(b.graph.vertices, OwnInventory(a)));
    SortedNoDup(HaveSet(a.graph, Advertised(OwnInventory(b))));
    var need := NeedFrom(b, OwnInventory(a));
    OffersKnown(a, b, need, sc.haveA);
    ExtendNothing(b.graph.vertices, need, sc.haveA);
  }

  /** `txs` are bodies stored in `g` under wanted ids. */
  ghost predicate StoredBodies(g: Graph, want: set<TxHash>, txs: seq<DagTransaction>) {
    forall i :: 0 <= i < |txs| ==> txs[i].id in want && txs[i].id in g.vertices && g.vertices[txs[i].id] == txs[i]
  }

  lemma {:induction false} BodiesAre(g: Graph, want: set<TxHash>, n: nat)
    requires OrderOk(g) && n <= |g.order| && want <= g.vertices.Keys
    ensures |BodiesInOrder(g, want, n)| == |want * ToSet(g.order[..n])|
    ensures StoredBodies(g, want, BodiesInOrder(g, want, n))
  {
    hide StoredBodies, OrderOk, ToSet, NoDup;
    if n == 0 {
      NothingSkipped(g.order, want);
      NoBodies(g, want);
    } else {
      BodiesAre(g, want, n - 1);
      BodyStored(g, want, n - 1, BodiesInOrder(g, want, n - 1));
      CommonGrows(g.order, want, n - 1);
    }
  }

  lemma NoBodies(g: Graph, want: set<TxHash>)
    ensures StoredBodies(g, want, [])
  {}

  lemma BodyStored(g: Graph, want: set<TxHash>, n: nat, txs: seq<DagTransaction>)
    requires OrderOk(g) && n < |g.order| && StoredBodies(g, want, txs)
    ensures NoDup(g.order) && g.order[n] in g.vertices
    ensures g.order[n] in want ==> StoredBodies(g, want, txs + [g.vertices[g.order[n]]])
  {}

  lemma CommonGrows(order: seq<TxHash>, want: set<TxHash>, n: nat)
    requires NoDup(order) && n < |order|
    ensures |want * ToSet(order[..n + 1])| == |want * ToSet(order[..n])| + if order[n] in want then 1 else 0
  {
    SkipGrows(order, want, n);
  }

  /** One body per vertex the other side lacks, as stored. */
  lemma BodiesExact(d: Dag, want: seq<TxHash>)
    requires Grown(d.graph) && ToSet(want) <= d.graph.vertices.Keys
    ensures |BodiesFor(d, want)| == |ToSet(want)| && StoredBodies(d.graph, ToSet(want), BodiesFor(d, want))
  {
    hide BodiesInOrder, StoredBodies, Grown;
    GrownLined(d.graph);
    GrownOrder(d.graph);
    BodiesAre(d.graph, ToSet(want), |d.graph.order|);
    assert d.graph.order[..|d.graph.order|] == d.graph.order;
    assert ToSet(want) * d.graph.vertices.Keys == ToSet(want);
  }

  lemma GrownOrder(g: Graph)
    requires Grown(g)
    ensures OrderOk(g)
  {
    GrownShaped(g);
  }

  /** The ids of the bodies are the wanted ones. */
  lemma {:induction false} BodiesIds(g: Graph, want: set<TxHash>, n: nat)
    requires OrderOk(g) && n <= |g.order|
    ensures Ids(BodiesInOrder(g, want, n)) == want * ToSet(g.order[..n])
  {
    hide ToSet, NoDup;
    if n == 0 {
      assert ToSet(g.order[..0]) == {} by { OrderNone(g.order); }
    } else {
      BodiesIds(g, want, n - 1);
      PrefixMore(g.order, n - 1);
      var p, id := BodiesInOrder(g, want, n - 1), g.order[n - 1];
      assert id in g.vertices && g.vertices[id].id == id;
      if id in want {
        var q := p + [g.vertices[id]];
        IdsMore(q, |p|);
        assert q[..|p|] == p && q[..|p| + 1] == q;
      }
    }
  }

  lemma OrderNone(order: seq<TxHash>)
    ensures ToSet(order[..0]) == {}
  {}

  lemma AllIds(d: Dag, want: seq<TxHash>)
    requires Grown(d.graph) && ToSet(want) <= d.graph.vertices.Keys
    ensures Ids(BodiesFor(d, want)) == ToSet(want)
  {
    hide Grown, BodiesInOrder;
    GrownOrder(d.graph);
    GrownLined(d.graph);
    BodiesIds(d.graph, ToSet(want), |d.graph.order|);
    assert d.graph.order[..|d.graph.order|] == d.graph.order;
  }

  ghost predicate Proofless(txs: seq<DagTransaction>) {
    forall i :: 0 <= i < |txs| ==> txs[i].relayProofs == []
  }

  /** The bodies sent carry no relay proofs if and only if the vertices asked for carry none. */
  lemma ProoflessExact(d: Dag, want: seq<TxHash>)
    requires Grown(d.graph) && ToSet(want) <= d.graph.vertices.Keys
    ensures Proofless(BodiesFor(d, want)) <==> Unproven(d, ToSet(want))
  {
    hide Grown, BodiesFor, ToSet;
    BodiesExact(d, want);
    AllIds(d, want);
    var txs := BodiesFor(d, want);
    if Proofless(txs) {
      forall h | h in d.graph.vertices && h in ToSet(want) ensures d.graph.vertices[h].relayProofs == [] {
        assert h in Ids(txs);
        var i :| 0 <= i < |txs| && txs[i].id == h;
      }
    }
  }

  /** The requests and inventories of a round can always be read; the bodies a peer sends can
      be if and only if none of them carries relay proofs. */
  lemma ScriptLegible(a: Dag, e: nat, u: set<TxHash>, b: Dag, f: nat, v: set<TxHash>)
    requires Replica(a, e, u) && Replica(b, f, v) && a.graph.genesis == b.graph.genesis && Exact(a, b, ScriptOf(a, b))
    ensures var sc := ScriptOf(a, b);
      && Plays(a, b, sc) && (sc.StopA() == sc.LenA() <==> Sendable(a, b))
      && (sc.StopB() == sc.LenB() <==> Unproven(b, Asked(a, b)))
  {
    hide Settled, Grown, Unproven, BodiesFor, ExtendNeed, OwnInventory, HaveFor, NeedFrom, Leading;
    hide Proofless, Asked, NoDup;
    var sc := ScriptOf(a, b);
    GenesisStored(a.graph);
    GenesisStored(b.graph);
    InventoryReadable(a, e, u);
    InventoryReadable(b, f, v);
    AskedStored(a, b);
    ProoflessExact(a, sc.needB);
    ProoflessExact(b, sc.needA);
    ListsReadable(a, b, sc);
    StopsExact(sc);
  }

  lemma AskedStored(a: Dag, b: Dag)
    ensures Asked(a, b) <= Wanted(a, b.graph)
  {}

  lemma GenesisStored(g: Graph)
    requires Grown(g)
    ensures g.genesis in g.vertices
  {
    GrownShaped(g);
  }

  lemma ListsReadable(a: Dag, b: Dag, sc: Script)
    requires Exact(a, b, sc) && a.graph.genesis == b.graph.genesis
    requires a.graph.genesis in a.graph.vertices && b.graph.genesis in b.graph.vertices
    requires |a.graph.vertices.Keys - {a.graph.genesis}| <= MAX_INVENTORY_HASHES
    requires |b.graph.vertices.Keys - {b.graph.genesis}| <= MAX_INVENTORY_HASHES
    ensures Readable(Need(sc.needA)) && Readable(Need(sc.needB)) && Readable(Have(sc.haveA))
  {
    hide Asked, ToSet, NoDup;
    AskedStored(a, b);
    NoDupCard(sc.needA);
    NoDupCard(sc.needB);
    NoDupCard(sc.haveA);
    SubsetSmaller(ToSet(sc.needA), b.graph.vertices.Keys - {b.graph.genesis});
    SubsetSmaller(ToSet(sc.needB), a.graph.vertices.Keys - {a.graph.genesis});
    SubsetSmaller(ToSet(sc.haveA), a.graph.vertices.Keys - {a.graph.genesis});
  }

  lemma StopsExact(sc: Script)
    requires Readable(Inventory(sc.invA)) && Readable(Inventory(sc.invB))
    requires Readable(Need(sc.needA)) && Readable(Need(sc.needB)) && Readable(Have(sc.haveA))
    ensures sc.StopA() >= 4 && sc.StopB() >= 3
    ensures sc.StopA() == sc.LenA() <==> Proofless(sc.fromA)
    ensures sc.StopB() == sc.LenB() <==> Proofless(sc.fromB)
  {
    hide Leading, Proofless, Envelopes;
    LeadingExact([Ping, Inventory(sc.invA), Need(sc.needA), Have(sc.haveA)], sc.fromA);
    LeadingExact([Pong, Inventory(sc.invB), Need(sc.needB)], sc.fromB);
  }

  /** After readable messages, bodies and the closing word are read to the end if and only if no
      body carries relay proofs. */
  lemma LeadingExact(pre: seq<Message>, txs: seq<DagTransaction>)
    requires forall i :: 0 <= i < |pre| ==> Readable(pre[i])
    ensures Leading(pre + Envelopes(txs) + [Done]) >= |pre|
    ensures Leading(pre + Envelopes(txs) + [Done]) == |pre| + |txs| + 1 <==> Proofless(txs)
  {
    hide Leading, Envelopes;
    var ms := pre + Envelopes(txs) + [Done];
    Parts(pre, txs, ms);
    hide Readable;
    if Leading(ms) == |ms| {
      forall i | 0 <= i < |txs| ensures txs[i].relayProofs == [] { assert Readable(ms[|pre| + i]); }
    }
  }

  lemma Parts(pre: seq<Message>, txs: seq<DagTransaction>, ms: seq<Message>)
    requires ms == pre + Envelopes(txs) + [Done] && forall i :: 0 <= i < |pre| ==> Readable(pre[i])
    ensures forall i :: 0 <= i < |pre| ==> Readable(ms[i])
    ensures forall i :: 0 <= i < |txs| ==> (Readable(ms[|pre| + i]) <==> txs[i].relayProofs == [])
    ensures forall i :: |pre| <= i < |pre| + |txs| ==> (Readable(ms[i]) <==> txs[i - |pre|].relayProofs == [])
    ensures |ms| == |pre| + |txs| + 1 && Readable(ms[|pre| + |txs|])
  {
    forall i | 0 <= i < |pre| ensures ms[i] == pre[i] {}
    forall i | 0 <= i < |txs| ensures ms[|pre| + i] == Body(txs[i]) {}
    forall i | |pre| <= i < |pre| + |txs| ensures ms[i] == Body(txs[i - |pre|]) {}
  }

  // ---------------------------------------------------------------- theorem

  /** What one peer lacks of the other. */
  ghost function Gap(a: Dag, b: Dag): nat { |Wanted(a, b.graph)| }

  /** A peer that has ingested some prefix of what it was sent. */
  ghost predicate Ingested(d: Dag, txs: seq<DagTransaction>, now: Dag) {
    exists k :: 0 <= k <= |txs| && now == Ingest(d, txs[..k])
  }

  /** Two nodes in a round whose requests come out as they should. */
  ghost predicate Encounter(a: Dag, e: nat, u: set<TxHash>, b: Dag, f: nat, v: set<TxHash>) {
    && Replica(a, e, u) && Replica(b, f, v) && a.graph.genesis == b.graph.genesis && Exact(a, b, ScriptOf(a, b))
    && Room(a.faucet, |a.graph.order| + |b.graph.order|) && Room(b.faucet, |a.graph.order| + |b.graph.order|)
  }

  /** Two replicas in a round with each other, tip closures within the walk bound. */
  ghost predicate Meeting(a: Dag, e: nat, u: set<TxHash>, b: Dag, f: nat, v: set<TxHash>) {
    && Replica(a, e, u) && Replica(b, f, v) && a.graph.genesis == b.graph.genesis && TipsFit(a.graph)
    && TipsFit(b.graph)
    && Room(a.faucet, |a.graph.order| + |b.graph.order|) && Room(b.faucet, |a.graph.order| + |b.graph.order|)
  }

  lemma MeetingIs(a: Dag, e: nat, u: set<TxHash>, b: Dag, f: nat, v: set<TxHash>)
    requires Meeting(a, e, u, b, f, v)
    ensures Encounter(a, e, u, b, f, v) && Asked(a, b) == Wanted(a, b.graph)
  {
    hide TipsFit, Replica, ScriptOf, Asked, Exact;
    RequestsExact(a, e, u, b, f, v);
  }

  lemma ScriptLengths(a: Dag, e: nat, u: set<TxHash>, b: Dag, f: nat, v: set<TxHash>)
    requires Encounter(a, e, u, b, f, v)
    ensures |ScriptOf(a, b).fromA| == Gap(b, a) && |ScriptOf(a, b).fromB| == |Asked(a, b)|
  {
    var sc := ScriptOf(a, b);
    hide Settled, Grown, BodiesFor, ExtendNeed, OwnInventory, HaveFor, NeedFrom, Asked, NoDup;
    AskedStored(a, b);
    BodiesExact(a, sc.needB);
    BodiesExact(b, sc.needA);
  }

  /** Every interleaving of a round, taken as far as one likes: a peer fails only because it is
      sent a vertex with relay proofs, and once nothing can move it has failed exactly if there
      was one; both have returned exactly if there was none on either side. */
  lemma EveryInterleaving(a: Dag, e: nat, u: set<TxHash>, b: Dag, f: nat, v: set<TxHash>, moves: seq<Move>, w: World)
    requires Encounter(a, e, u, b, f, v) && Leads(Start(a, b), moves, w)
    ensures w.a.at.Failed? ==> !Unproven(b, Asked(a, b))
    ensures w.b.at.Failed? ==> !Sendable(a, b)
    ensures Stuck(w) ==> (w.a.at.Failed? <==> !Unproven(b, Asked(a, b))) && (w.b.at.Failed? <==> !Sendable(a, b))
    ensures Stuck(w) ==> (Finished(w) <==> Sendable(a, b) && Unproven(b, Asked(a, b)))
    ensures |moves| <= 2 * (|Asked(a, b)| + Gap(b, a) + 9)
    ensures Finished(w) <==> |moves| == 2 * (|Asked(a, b)| + Gap(b, a) + 9)
    ensures Finished(w) ==> Stuck(w) && Sendable(a, b) && Unproven(b, Asked(a, b))
  {
    hide Leads, Grown, Settled, Unproven, BodiesFor, Reached, Stuck, Finished, Leading, Asked, Exact;
    var sc := ScriptOf(a, b);
    hide ScriptOf;
    ScriptLegible(a, e, u, b, f, v);
    ScriptLengths(a, e, u, b, f, v);
    var p := LeadsOnScript(a, b, sc, moves, w);
    StuckExact(a, b, sc, p, w);
    NeverLast(sc);
  }

  /** Within the closure bound each side asks for all that it lacks, so it fails exactly if it
      lacks a vertex with relay proofs. */
  lemma RoundExact(a: Dag, e: nat, u: set<TxHash>, b: Dag, f: nat, v: set<TxHash>, moves: seq<Move>, w: World)
    requires Meeting(a, e, u, b, f, v) && Leads(Start(a, b), moves, w)
    ensures w.a.at.Failed? ==> !Sendable(b, a)
    ensures w.b.at.Failed? ==> !Sendable(a, b)
    ensures Stuck(w) ==> (w.a.at.Failed? <==> !Sendable(b, a)) && (w.b.at.Failed? <==> !Sendable(a, b))
    ensures Stuck(w) ==> (Finished(w) <==> Sendable(a, b) && Sendable(b, a))
    ensures |moves| <= 2 * (Gap(a, b) + Gap(b, a) + 9)
    ensures Finished(w) <==> |moves| == 2 * (Gap(a, b) + Gap(b, a) + 9)
    ensures Finished(w) ==> Stuck(w) && Sendable(a, b) && Sendable(b, a)
  {
    hide Leads, Stuck, Finished, Encounter, Meeting, Unproven, Asked;
    MeetingIs(a, e, u, b, f, v);
    EveryInterleaving(a, e, u, b, f, v, moves, w);
  }

  /** Between peers that miss no vertex with relay proofs, neither meets an unexpected message,
      the round can go on unless both have returned, and it ends after exactly
      2 * (gaps + 9) moves. */
  lemma RoundNeverFails(a: Dag, e: nat, u: set<TxHash>, b: Dag, f: nat, v: set<TxHash>, moves: seq<Move>, w: World)
    requires Meeting(a, e, u, b, f, v) && Sendable(a, b) && Sendable(b, a) && Leads(Start(a, b), moves, w)
    ensures !w.a.at.Failed? && !w.b.at.Failed?
    ensures Stuck(w) <==> Finished(w)
    ensures |moves| <= 2 * (Gap(a, b) + Gap(b, a) + 9)
    ensures Finished(w) <==> |moves| == 2 * (Gap(a, b) + Gap(b, a) + 9)
  {
    hide Meeting, Leads, Sendable, Stuck, Finished, Gap;
    RoundExact(a, e, u, b, f, v, moves, w);
  }

  /** At every point of every interleaving each peer holds its start plus a prefix of the
      other's missing bodies; each of those is stored, with its parents already there. */
  lemma EveryIngestFits(a: Dag, e: nat, u: set<TxHash>, b: Dag, f: nat, v: set<TxHash>, moves: seq<Move>, w: World)
    requires Meeting(a, e, u, b, f, v) && Leads(Start(a, b), moves, w)
    ensures var sc := ScriptOf(a, b);
      && Ingested(a, sc.fromB, w.a.dag) && AllStored(a, sc.fromB)
      && Ingested(b, sc.fromA, w.b.dag) && AllStored(b, sc.fromA)
  {
    hide Leads, Grown, Settled, TipsFit, Unproven, BodiesFor, ScriptOf, AllStored, Ingest, Leading, Exact, Asked;
    var sc := ScriptOf(a, b);
    MeetingIs(a, e, u, b, f, v);
    ScriptLegible(a, e, u, b, f, v);
    var p := LeadsOnScript(a, b, sc, moves, w);
    var f', v' := ResponderGains(a, e, u, b, f, v);
    var e', u' := InitiatorGains(a, e, u, b, f, v);
  }

  /** `d` stores everything sent to it, and then holds the union. */
  ghost predicate Gains(d: Dag, other: Dag, txs: seq<DagTransaction>, e: nat, u: set<TxHash>) {
    && AllStored(d, txs) && Inv(Ingest(d, txs), e, u) && Ingest(d, txs).faucet == d.faucet
    && Ingest(d, txs).graph.vertices == other.graph.vertices + d.graph.vertices
  }

  lemma ResponderGains(a: Dag, e: nat, u: set<TxHash>, b: Dag, f: nat, v: set<TxHash>)
      returns (f': nat, v': set<TxHash>)
    requires Encounter(a, e, u, b, f, v)
    ensures Gains(b, a, ScriptOf(a, b).fromA, f', v')
  {
    hide Grown, Settled, NeedFrom, HaveFor, OwnInventory, AllStored, Ingest, ExtendNeed, BodiesInOrder, Asked, NoDup;
    f', v' := IngestBodies(b, f, v, a.graph);
  }

  lemma InitiatorGains(a: Dag, e: nat, u: set<TxHash>, b: Dag, f: nat, v: set<TxHash>)
      returns (e': nat, u': set<TxHash>)
    requires Encounter(a, e, u, b, f, v) && Asked(a, b) == Wanted(a, b.graph)
    ensures Gains(a, b, ScriptOf(a, b).fromB, e', u')
  {
    hide Grown, Settled, NeedFrom, HaveFor, OwnInventory, AllStored, Ingest, ExtendNeed, BodiesInOrder, Asked, NoDup;
    e', u' := IngestBodies(a, e, u, b.graph);
  }

  /** When a round has ended, each peer stores its own vertices and the other's, both ledgers
      satisfy the invariant and no faucet has changed. */
  lemma RoundConverges(a: Dag, e: nat, u: set<TxHash>, b: Dag, f: nat, v: set<TxHash>, moves: seq<Move>, w: World)
    requires Meeting(a, e, u, b, f, v) && Leads(Start(a, b), moves, w) && Finished(w)
    ensures w.a.dag.graph.vertices == b.graph.vertices + a.graph.vertices
    ensures w.b.dag.graph.vertices == a.graph.vertices + b.graph.vertices
    ensures w.a.dag.graph.vertices.Keys == w.b.dag.graph.vertices.Keys == a.graph.vertices.Keys + b.graph.vertices.Keys
    ensures w.a.dag.faucet == a.faucet && w.b.dag.faucet == b.faucet
    ensures (exists e', u' :: Inv(w.a.dag, e', u')) && (exists f', v' :: Inv(w.b.dag, f', v'))
  {
    hide Leads, Inv, TipsFit, Unproven, BodiesFor, ScriptOf, AllStored, Ingest, Leading, Exact, Asked;
    var sc := ScriptOf(a, b);
    MeetingIs(a, e, u, b, f, v);
    ScriptLegible(a, e, u, b, f, v);
    var p := LeadsOnScript(a, b, sc, moves, w);
    EndsAt(a, b, sc, p, w);
    var f', v' := ResponderGains(a, e, u, b, f, v);
    var e', u' := InitiatorGains(a, e, u, b, f, v);
  }

  lemma EndsAt(a: Dag, b: Dag, sc: Script, p: Progress, w: World)
    requires Plays(a, b, sc) && Reached(a, b, sc, p, w) && Finished(w)
    ensures w.a.dag == Ingest(a, sc.fromB) && w.b.dag == Ingest(b, sc.fromA)
  {
    hide Ingest, ScriptOf, Leading;
    assert sc.fromA[..|sc.fromA|] == sc.fromA && sc.fromB[..|sc.fromB|] == sc.fromB;
    NeverLast(sc);
  }

  // ------------------------------------------------------- beyond the bound

  /** Accepting bodies, parents known or not, keeps the invariant and what is stored, and adds no
      others. */
  lemma {:induction false} IngestKeeps(d: Dag, e: nat, u: set<TxHash>, txs: seq<DagTransaction>)
      returns (e': nat, u': set<TxHash>)
    requires Inv(d, e, u) && Room(d.faucet, |d.graph.order| + |txs|) && forall i :: 0 <= i < |txs| ==> Offered(txs[i])
    ensures var m := Ingest(d, txs);
      && Inv(m, e', u') && m.faucet == d.faucet && |m.graph.order| <= |d.graph.order| + |txs|
      && d.graph.vertices.Keys <= m.graph.vertices.Keys <= d.graph.vertices.Keys + Ids(txs)
  {
    hide Inv, Accept, Offered, Room;
    e', u' := e, u;
    if txs == [] {
      assert Ingest(d, txs) == d;
    } else {
      var p, tx := txs[..|txs| - 1], txs[|txs| - 1];
      FewerRoom(d.faucet, |d.graph.order| + |p|, |d.graph.order| + |txs|);
      e', u' := IngestKeeps(d, e, u, p);
      IdsMore(txs, |p|);
      assert txs[..|p| + 1] == txs;
      e', u' := IngestOne(Ingest(d, p), e', u', tx, |d.graph.order| + |p|);
    }
  }

  lemma FewerRoom(f: map<Address, nat>, n: nat, more: nat)
    requires n <= more && Room(f, more)
    ensures Room(f, n)
  {}

  lemma IngestOne(m: Dag, e: nat, u: set<TxHash>, tx: DagTransaction, n: nat) returns (e': nat, u': set<TxHash>)
    requires Inv(m, e, u) && Offered(tx) && |m.graph.order| <= n && Room(m.faucet, n + 1)
    ensures var r := Accept(m, tx).0;
      && Inv(r, e', u') && r.faucet == m.faucet && |r.graph.order| <= |m.graph.order| + 1
      && m.graph.vertices.Keys <= r.graph.vertices.Keys <= m.graph.vertices.Keys + {tx.id}
  {
    hide Grown, Settled, AllOffered, CheckVertex, Insert, Accept;
    e', u' := AcceptKeeps(m, e, u, tx);
    if CheckVertex(m.graph.vertices, tx) == Ok { InsertExtends(m.graph, tx); }
  }

  /** What the initiator asked for may lack parents; it stores what it can. */
  lemma InitiatorKeeps(a: Dag, e: nat, u: set<TxHash>, b: Dag, f: nat, v: set<TxHash>)
      returns (e': nat, u': set<TxHash>)
    requires Encounter(a, e, u, b, f, v)
    ensures var m := Ingest(a, ScriptOf(a, b).fromB);
      && Inv(m, e', u') && m.faucet == a.faucet
      && a.graph.vertices.Keys <= m.graph.vertices.Keys <= a.graph.vertices.Keys + Asked(a, b)
  {
    var sc := ScriptOf(a, b);
    hide Settled, Grown, AllOffered, BodiesFor, ExtendNeed, OwnInventory, HaveFor, NeedFrom, Asked;
    hide Ingest, NoDup, StoredBodies, Room;
    AskedStored(a, b);
    BodiesExact(b, sc.needA);
    AllIds(b, sc.needA);
    BodiesOffered(b, f, v, ToSet(sc.needA), sc.fromB);
    AskedFits(a, b);
    FewerRoom(a.faucet, |a.graph.order| + |sc.fromB|, |a.graph.order| + |b.graph.order|);
    e', u' := IngestKeeps(a, e, u, sc.fromB);
  }

  lemma AskedFits(a: Dag, b: Dag)
    requires Grown(b.graph)
    ensures |Asked(a, b)| <= |b.graph.order|
  {
    hide Grown, Advertised;
    GrownLined(b.graph);
    SubsetSmaller(Asked(a, b), b.graph.vertices.Keys);
  }

  lemma BodiesOffered(d: Dag, e: nat, u: set<TxHash>, want: set<TxHash>, txs: seq<DagTransaction>)
    requires Inv(d, e, u) && StoredBodies(d.graph, want, txs)
    ensures forall i :: 0 <= i < |txs| ==> Offered(txs[i])
  {
    hide Grown, Settled;
    NullNotStored(d.graph);
  }

  /** Nodes in a round whose inventories may leave things out. */
  ghost predicate LooseMeeting(a: Dag, e: nat, u: set<TxHash>, b: Dag, f: nat, v: set<TxHash>) {
    && Replica(a, e, u) && Replica(b, f, v) && a.graph.genesis == b.graph.genesis
    && SameParents(a.graph.vertices, b.graph.vertices)
    && Room(a.faucet, |a.graph.order| + |b.graph.order|) && Room(b.faucet, |a.graph.order| + |b.graph.order|)
  }

  lemma LooseIs(a: Dag, e: nat, u: set<TxHash>, b: Dag, f: nat, v: set<TxHash>)
    requires LooseMeeting(a, e, u, b, f, v)
    ensures Encounter(a, e, u, b, f, v)
  {
    hide Replica, ScriptOf, Exact, SameParents;
    RequestsWhole(a, e, u, b, f, v);
  }

  /** A round between any two nodes that agree on the parents of what both store, inventories
      complete or not: the responder always ends with the union, because the initiator's offer
      names whatever the inventories left out; the initiator ends with the union if and only if
      the responder advertises all that it lacks. */
  lemma RoundBeyond(a: Dag, e: nat, u: set<TxHash>, b: Dag, f: nat, v: set<TxHash>, moves: seq<Move>, w: World)
    requires LooseMeeting(a, e, u, b, f, v) && Leads(Start(a, b), moves, w)
    ensures Stuck(w) ==> (Finished(w) <==> Sendable(a, b) && Unproven(b, Asked(a, b)))
    ensures |moves| <= 2 * (|Asked(a, b)| + Gap(b, a) + 9)
    ensures Finished(w) ==> w.b.dag.graph.vertices == a.graph.vertices + b.graph.vertices
    ensures Finished(w) ==> a.graph.vertices.Keys <= w.a.dag.graph.vertices.Keys <= a.graph.vertices.Keys + Asked(a, b)
    ensures Finished(w) ==> (w.a.dag.graph.vertices.Keys == a.graph.vertices.Keys + b.graph.vertices.Keys
                             <==> Wanted(a, b.graph) <= Advertised(OwnInventory(b)))
    ensures Finished(w) ==> exists e', u' :: Inv(w.a.dag, e', u')
  {
    hide Leads, Inv, Unproven, ScriptOf, Finished, Stuck, Exact, Asked, LooseMeeting, Encounter, Advertised, Gains;
    LooseIs(a, e, u, b, f, v);
    EveryInterleaving(a, e, u, b, f, v, moves, w);
    if Finished(w) {
      EndsOnScript(a, e, u, b, f, v, moves, w);
      var f', v' := ResponderGains(a, e, u, b, f, v);
      GainsUnion(b, a, ScriptOf(a, b).fromA, f', v');
      var e', u' := InitiatorEnds(a, e, u, b, f, v);
    }
  }

  /** What the initiator holds in the end. */
  lemma InitiatorEnds(a: Dag, e: nat, u: set<TxHash>, b: Dag, f: nat, v: set<TxHash>) returns (e': nat, u': set<TxHash>)
    requires Encounter(a, e, u, b, f, v)
    ensures var m := Ingest(a, ScriptOf(a, b).fromB);
      && Inv(m, e', u')
      && a.graph.vertices.Keys <= m.graph.vertices.Keys <= a.graph.vertices.Keys + Asked(a, b)
      && (m.graph.vertices.Keys == a.graph.vertices.Keys + b.graph.vertices.Keys
          <==> Wanted(a, b.graph) <= Advertised(OwnInventory(b)))
  {
    hide Inv, ScriptOf, Asked, Encounter, Advertised, Gains, OwnInventory, Ingest;
    e', u' := InitiatorKeeps(a, e, u, b, f, v);
    AskedAll(a, b);
    if Wanted(a, b.graph) <= Advertised(OwnInventory(b)) {
      var e1, u1 := InitiatorGains(a, e, u, b, f, v);
      GainsUnion(a, b, ScriptOf(a, b).fromB, e1, u1);
    }
  }

  lemma EndsOnScript(a: Dag, e: nat, u: set<TxHash>, b: Dag, f: nat, v: set<TxHash>, moves: seq<Move>, w: World)
    requires Encounter(a, e, u, b, f, v) && Leads(Start(a, b), moves, w) && Finished(w)
    ensures w.a.dag == Ingest(a, ScriptOf(a, b).fromB) && w.b.dag == Ingest(b, ScriptOf(a, b).fromA)
  {
    hide Leads, Inv, Unproven, ScriptOf, Ingest, Leading, Exact, Asked, Reached, Finished;
    var sc := ScriptOf(a, b);
    ScriptLegible(a, e, u, b, f, v);
    var p := LeadsOnScript(a, b, sc, moves, w);
    EndsAt(a, b, sc, p, w);
  }

  lemma GainsUnion(d: Dag, other: Dag, txs: seq<DagTransaction>, e: nat, u: set<TxHash>)
    requires Gains(d, other, txs, e, u)
    ensures Ingest(d, txs).graph.vertices == other.graph.vertices + d.graph.vertices
  {
    hide Inv, AllStored, Ingest;
  }

  lemma AskedAll(a: Dag, b: Dag)
    ensures Asked(a, b) == Wanted(a, b.graph) <==> Wanted(a, b.graph) <= Advertised(OwnInventory(b))
    ensures Asked(a, b) <= Wanted(a, b.graph) == b.graph.vertices.Keys - a.graph.vertices.Keys
  {
    hide Advertised, OwnInventory;
    if Asked(a, b) == Wanted(a, b.graph) {
      forall h | h in Wanted(a, b.graph) ensures h in Advertised(OwnInventory(b)) { assert h in Asked(a, b); }
    }
  }

  // -------------------------------------------------------------- live nodes

  /** A node that any allowed run from `genesis` has reached, with at most 1,000 vertices. */
  ghost predicate Live(genesis: DagTransaction, steps: seq<Step>) {
    ProtocolGenesis(genesis) && AllowedRun(WithGenesis(genesis), steps) &&
    |Run(WithGenesis(genesis), steps).graph.order| <= 1_000
  }

  lemma LiveReplica(genesis: DagTransaction, steps: seq<Step>) returns (e: nat, u: set<TxHash>)
    requires Live(genesis, steps)
    ensures Replica(Run(WithGenesis(genesis), steps), e, u)
    ensures Run(WithGenesis(genesis), steps).graph.genesis == genesis.id
    ensures TipsFit(Run(WithGenesis(genesis), steps).graph)
  {
    hide Run, AllowedRun, Inv, WithGenesis, Replica, ProtocolGenesis, TipsFit;
    GenesisInv(genesis);
    GenesisIs(genesis);
    RunGrows(WithGenesis(genesis), 1, {}, steps);
    e, u := RunKeeps(WithGenesis(genesis), 1, {}, steps);
    SmallReplica(Run(WithGenesis(genesis), steps), e, u);
  }

  lemma GenesisIs(genesis: DagTransaction)
    requires ProtocolGenesis(genesis)
    ensures WithGenesis(genesis).graph.genesis == genesis.id
  {
    hide Insert;
    GenesisAttaches(genesis);
    GenesisFields(genesis);
  }

  /** Small graphs fit every bound. */
  lemma SmallReplica(d: Dag, e: nat, u: set<TxHash>)
    requires Inv(d, e, u) && |d.graph.order| <= 1_000
    ensures Replica(d, e, u) && TipsFit(d.graph)
  {
    hide Grown, Settled, AllOffered, Closure;
    GrownShaped(d.graph);
    var g := d.graph;
    forall t | t in g.tips ensures |Closure(g.vertices, t)| <= ANCESTOR_WALK_BOUND + 1 {
      ClosureStored(g.vertices, t);
      SubsetSmaller(Closure(g.vertices, t), g.vertices.Keys);
    }
    SubsetSmaller(g.tips, g.vertices.Keys);
    assert |g.vertices.Keys| == |g.vertices|;
  }

  /** Two live nodes of one network, whatever each has been through: every interleaving of a
      round between them ends, in failure exactly if one of them lacks a vertex with relay
      proofs, and otherwise with the union on both. */
  lemma LiveNodesConverge(genesis: DagTransaction, s: seq<Step>, t: seq<Step>, moves: seq<Move>, w: World)
    requires Live(genesis, s) && Live(genesis, t)
    requires var a, b := Run(WithGenesis(genesis), s), Run(WithGenesis(genesis), t);
      Room(a.faucet, 2_000) && Room(b.faucet, 2_000) && Leads(Start(a, b), moves, w)
    ensures var a, b := Run(WithGenesis(genesis), s), Run(WithGenesis(genesis), t);
      && |moves| <= 2 * (Gap(a, b) + Gap(b, a) + 9)
      && (w.a.at.Failed? ==> !Sendable(b, a)) && (w.b.at.Failed? ==> !Sendable(a, b))
      && (Stuck(w) ==> (Finished(w) <==> Sendable(a, b) && Sendable(b, a)))
      && (Finished(w) ==>
            w.a.dag.graph.vertices.Keys == w.b.dag.graph.vertices.Keys == a.graph.vertices.Keys + b.graph.vertices.Keys)
  {
    hide Live, Run, WithGenesis, Leads, Sendable, Replica, Stuck, Finished, Gap, TipsFit;
    var a, b := Run(WithGenesis(genesis), s), Run(WithGenesis(genesis), t);
    LiveSize(genesis, s);
    LiveSize(genesis, t);
    var e, u := LiveReplica(genesis, s);
    var f, v := LiveReplica(genesis, t);
    assert Meeting(a, e, u, b, f, v);
    hide Meeting;
    RoundExact(a, e, u, b, f, v, moves, w);
    if Finished(w) { RoundConverges(a, e, u, b, f, v, moves, w); }
  }

  lemma LiveSize(genesis: DagTransaction, s: seq<Step>)
    requires Live(genesis, s)
    ensures |Run(WithGenesis(genesis), s).graph.order| <= 1_000
  {
    hide Run, AllowedRun, WithGenesis, ProtocolGenesis;
  }
}
