/** `DagStore` (src/persist.rs): the files on disk, and a boot from them after any torn
    write. */
module Recovery {
  import opened Basics
  import opened Transactions
  import opened Building
  import opened Dags
  import opened Runs
  import opened Safety
  import opened Bytes
  import opened Codec
  import opened Spellings
  import opened Wal
  import opened Refinement
  import opened Persistence
  import opened Engine

  const SNAPSHOT_EVERY: nat := 8

  /** Signature verification, and the message a carrier signs for a vertex. */
  datatype Checks = Checks(verifies: (seq<byte>, seq<byte>, seq<byte>) -> bool,
                           carrierMessage: (Digest, seq<byte>) -> seq<byte>)

  function AddressOf(key: seq<byte>, prims: Primitives): Digest { prims.sha(Blob(key)) }

  /** The vertex the ledger sees in a decoded record. */
  function AsVertex(tx: SignedTx, prims: Primitives, checks: Checks): DagTransaction {
    DagTransaction(
      tx.id, tx.parent1, tx.parent2, tx.sender, tx.recipient, tx.amount, tx.fee, tx.nonce,
      AddressOf(tx.publicKey, prims) == tx.sender,
      checks.verifies(tx.publicKey, UnsignedBytes(tx), tx.signature),
      tx.relayNodes,
      seq(|tx.relayProofs|, i requires 0 <= i < |tx.relayProofs| => AsProof(tx.id, tx.relayProofs[i], prims, checks)))
  }

  function AsProof(id: Digest, p: CarrierProof, prims: Primitives, checks: Checks): RelayProof {
    RelayProof(p.node, AddressOf(p.publicKey, prims) == p.node
                       && checks.verifies(p.publicKey, checks.carrierMessage(id, p.publicKey), p.signature))
  }

  function AsVertices(txs: seq<SignedTx>, prims: Primitives, checks: Checks): (r: seq<DagTransaction>)
    ensures |r| == |txs| && forall i :: 0 <= i < |txs| ==> r[i] == AsVertex(txs[i], prims, checks)
  {
    seq(|txs|, i requires 0 <= i < |txs| => AsVertex(txs[i], prims, checks))
  }

  /** The vertex that decoded bytes stand for, by where its fields stand: parents, sender and
      recipient big-endian in [0, 128), amount, fee and nonce little-endian in [128, 152), then the
      key blob; the id is the digest of [0, 1469), which the signature is verified against. */
  lemma DecodedVertex(b: seq<byte>, prims: Primitives, checks: Checks)
    requires FromCanonical(b, prims).Got?
    ensures |b| >= 3_902
    ensures var v := AsVertex(FromCanonical(b, prims).value, prims, checks);
      && v.parent1 == FromBE(b[0..32]) && v.parent2 == FromBE(b[32..64])
      && v.sender == FromBE(b[64..96]) && v.recipient == FromBE(b[96..128])
      && v.amount == FromLE(b[128..136]) && v.fee == FromLE(b[136..144]) && v.nonce == FromLE(b[144..152])
      && v.id == prims.sha(b[..1_469])
      && (v.keyMatchesSender <==> prims.sha(b[152..1_469]) == FromBE(b[64..96]))
      && (v.signatureValid <==> checks.verifies(b[157..1_469], b[..1_469], b[1_478..3_898]))
  {
    var r := FromCanonical(b, prims);
    var slack, slacks := Decoded(b, prims);
    SpellingAt(r.value, slack, slacks, r.rest, prims);
    HeadAt(b);
    HeadFields(b, prims);
    KeyBlob(r.value.publicKey, b);
    hide FromCanonical, Spelling, UnsignedBytes, FromLE, FromBE, LE, Pow256, AsProof, TakeHead;
  }

  lemma HeadFields(b: seq<byte>, prims: Primitives)
    requires FromCanonical(b, prims).Got?
    ensures var tx, h := FromCanonical(b, prims).value, TakeHead(b);
      && h.Got? && |b| >= 152 && tx.parent1 == h.value.parent1 && tx.parent2 == h.value.parent2
      && tx.sender == h.value.sender && tx.recipient == h.value.recipient
      && tx.amount == h.value.amount && tx.fee == h.value.fee && tx.nonce == h.value.nonce
  {
    hide TakeKey, TakeSignature, TakeNodes, TakeLE, TakeProofs, UnsignedBytes;
  }

  lemma KeyBlob(key: seq<byte>, b: seq<byte>)
    requires |b| >= 1_469 && |key| == PK_LEN
    requires b[152..157] == [2] + LE(1_312, 4) && b[157..1_469] == key
    ensures b[152..1_469] == Blob(key)
  {
    hide LE;
    assert b[152..1_469] == b[152..157] + b[157..1_469];
  }

  /** A carrier's proof is good if it names the address of its key and the key verifies the
      carrier message for this vertex. */
  lemma CarriedProofs(tx: SignedTx, prims: Primitives, checks: Checks)
    ensures var v := AsVertex(tx, prims, checks);
      && v.relayNodes == tx.relayNodes && |v.relayProofs| == |tx.relayProofs|
      && forall i :: 0 <= i < |tx.relayProofs| ==>
          var p := tx.relayProofs[i];
          && v.relayProofs[i].node == p.node
          && (v.relayProofs[i].valid <==>
                prims.sha(Blob(p.publicKey)) == p.node
                && checks.verifies(p.publicKey, checks.carrierMessage(tx.id, p.publicKey), p.signature))
  {}

  /** No payload hashes to the null parent. */
  ghost predicate NeverNull(prims: Primitives) {
    forall b :: prims.sha(b) != NULL_PARENT
  }

  datatype Boot = Booted(load: Load, snapshot: DagSnapshot) | BadSnapshot(error: ParseError)

  /** `DagStore::load`: snapshot if there is one, then faucet, log and rebuild. */
  ghost function BootFrom(genesis: DagTransaction, snapshot: Option<seq<byte>>, wal: seq<byte>,
                          prims: Primitives, checks: Checks): Boot {
    var s := if snapshot.Some? then ReadSnapshot(snapshot.value, prims) else Got(EMPTY_SNAPSHOT, []);
    if s.Refused? then BadSnapshot(s.error)
    else Booted(LoadFrom(genesis, s.value.faucet, AsVertices(ReadWal(wal, prims), prims, checks)), s.value)
  }

  // ------------------------------------------------------------- the files

  /** A node whose addresses, hashes and amounts have their fixed widths. */
  ghost predicate Ranged(d: Dag) {
    && (forall a {:trigger d.ledger.balances[a]} :: a in d.ledger.balances ==>
          a < Pow256(32) && d.ledger.balances[a] <= U64_MAX)
    && (forall a {:trigger d.faucet[a]} :: a in d.faucet ==> a < Pow256(32) && d.faucet[a] <= U64_MAX)
    && (forall t :: t in d.graph.tips ==> t < Pow256(32))
    && d.ledger.supply <= U64_MAX && d.ledger.txCount <= U64_MAX && |d.graph.vertices| <= U64_MAX
  }

  lemma TipsRanged(d: Dag)
    requires Ranged(d)
    ensures forall i :: 0 <= i < |Sorted(d.graph.tips)| ==> Sorted(d.graph.tips)[i] < Pow256(32)
  {
    AllBelow(Sorted(d.graph.tips), d.graph.tips, Pow256(32));
  }

  lemma AllBelow(s: seq<nat>, t: set<nat>, n: nat)
    requires ToSet(s) == t && forall x :: x in t ==> x < n
    ensures forall i :: 0 <= i < |s| ==> s[i] < n
  {
    forall i | 0 <= i < |s| ensures s[i] < n { assert s[i] in ToSet(s); }
  }

  /** `DagSnapshot::from_dag` */
  ghost function SnapshotOf(d: Dag): DagSnapshot
    requires Ranged(d)
  {
    TipsRanged(d);
    DagSnapshot(d.ledger.supply, d.ledger.txCount, |d.graph.vertices|, d.ledger.balances, d.faucet,
                Sorted(d.graph.tips))
  }

  /** A snapshot shows supply, counts, accounts, faucet and tips of `d`. */
  ghost predicate Shows(s: DagSnapshot, d: Dag) {
    && s.supply == d.ledger.supply && s.txCount == d.ledger.txCount && s.vertexCount == |d.graph.vertices|
    && s.accounts == d.ledger.balances && s.faucet == d.faucet
    && Increasing(s.tips) && ToSet(s.tips) == d.graph.tips
  }

  /** The snapshot file of a node shows that node when it is read back; supply, confirmed count
      and vertex count stand little-endian behind its nine-byte header. */
  lemma SnapshotExact(d: Dag, prims: Primitives)
    requires Ranged(d) && Storable(SnapshotOf(d))
    ensures var file := SnapshotFile(SnapshotOf(d), prims);
      && ReadSnapshot(file, prims).Got? && Shows(ReadSnapshot(file, prims).value, d)
      && |file| >= 41 + 24 && FromLE(file[9..17]) == d.ledger.supply
      && FromLE(file[17..25]) == d.ledger.txCount && FromLE(file[25..33]) == |d.graph.vertices|
  {
    var s := SnapshotOf(d);
    SnapshotShows(d);
    SnapshotInverts(s, prims);
    hide SnapshotOf, Shows;
    Widths();
    LERead(s.supply, 8);
    LERead(s.txCount, 8);
    LERead(s.vertexCount, 8);
    CountsAt(s, prims);
    hide SnapshotFile, ReadSnapshot, LE, FromLE, Storable, Ranged, Pow256;
  }

  lemma SnapshotShows(d: Dag)
    requires Ranged(d)
    ensures var s := SnapshotOf(d);
      Shows(s, d) && s.supply == d.ledger.supply && s.txCount == d.ledger.txCount && s.vertexCount == |d.graph.vertices|
  {
    hide Increasing;
  }

  lemma CountsAt(s: DagSnapshot, prims: Primitives)
    ensures var file := SnapshotFile(s, prims);
      && |file| >= 41 + 24 && file[9..17] == LE(s.supply, 8)
      && file[17..25] == LE(s.txCount, 8) && file[25..33] == LE(s.vertexCount, 8)
  {
    var body, file := SnapshotBytes(s), SnapshotFile(s, prims);
    hide AccountBytes, NodeBytes, LE;
    assert file[9..9 + |body|] == body;
    assert body[..8] == LE(s.supply, 8) && body[8..16] == LE(s.txCount, 8) && body[16..24] == LE(s.vertexCount, 8);
    assert file[9..17] == file[9..9 + |body|][..8] && file[17..25] == file[9..9 + |body|][8..16];
    assert file[25..33] == file[9..9 + |body|][16..24];
  }

  class DagStore {
    const prims: Primitives
    var wal: seq<byte>
    var snapshot: Option<seq<byte>>
    ghost var logged: seq<SignedTx>

    /** The log file is the records of what was appended, in order. */
    ghost predicate Valid()
      reads this
    {
      wal == Log(logged, prims)
    }

    constructor Open(prims: Primitives)
      ensures Valid() && this.prims == prims && logged == [] && wal == [] && snapshot == None
    {
      this.prims := prims;
      wal, snapshot, logged := [], None, [];
    }

    method WriteSnapshot(s: DagSnapshot)
      modifies `snapshot
      ensures snapshot == Some(SnapshotFile(s, prims))
    {
      snapshot := Some(Record(SNAP_MAGIC, SnapshotBytes(s), prims));
    }

    method SnapshotFrom(dag: KronDag) returns (s: DagSnapshot)
      requires Ranged(dag.View())
      ensures s == SnapshotOf(dag.View())
      ensures s.supply == dag.currentSupply && s.txCount == dag.dagTxCount && s.vertexCount == |dag.vertices|
      ensures s.accounts == dag.balances && s.faucet == dag.faucet && Increasing(s.tips) && ToSet(s.tips) == dag.tips
    {
      TipsRanged(dag.View());
      s := DagSnapshot(dag.currentSupply, dag.dagTxCount, |dag.vertices|, dag.balances, dag.faucet, Sorted(dag.tips));
    }

    /** Genesis is not logged; every eighth confirmed vertex refreshes the snapshot. */
    method AppendVertex(tx: SignedTx, dag: KronDag)
      requires Valid() && Ranged(dag.View())
      modifies this
      ensures Valid()
      ensures logged == old(logged) + if tx.parent1 == NULL_PARENT && tx.parent2 == NULL_PARENT then [] else [tx]
      ensures snapshot ==
        if (tx.parent1 == NULL_PARENT && tx.parent2 == NULL_PARENT)
           || dag.dagTxCount == 0 || dag.dagTxCount % 8 != 0
        then old(snapshot)
        else Some(SnapshotFile(SnapshotOf(dag.View()), prims))
      ensures snapshot != old(snapshot) ==>
        exists s :: snapshot == Some(SnapshotFile(s, prims)) && Shows(s, dag.View())
    {
      hide Ranged, SnapshotOf, CanonicalBytes, Record, SnapshotFile, Log;
      if tx.parent1 == NULL_PARENT && tx.parent2 == NULL_PARENT {
        return;
      }
      var body := WriteCanonical(tx);
      LogMore(logged, tx, prims);
      wal := wal + Record(WAL_MAGIC, body, prims);
      logged := logged + [tx];
      if dag.dagTxCount > 0 && dag.dagTxCount % SNAPSHOT_EVERY == 0 {
        var s := SnapshotFrom(dag);
        WriteSnapshot(s);
      }
    }

    method Load(genesis: DagTransaction, checks: Checks)
        returns (dag: KronDag, loaded: DagSnapshot, boot: Outcome, bad: Option<ParseError>)
      requires ProtocolGenesis(genesis) && NeverNull(prims)
      ensures fresh(dag)
      ensures bad.Some? <==> BootFrom(genesis, snapshot, wal, prims, checks).BadSnapshot?
      ensures bad.Some? ==> BootFrom(genesis, snapshot, wal, prims, checks) == BadSnapshot(bad.value)
      ensures bad.None? ==>
        var l := if boot == Ok then Loaded(dag.View()) else LoadFailed(boot.error);
        BootFrom(genesis, snapshot, wal, prims, checks) == Booted(l, loaded)
    {
      hide LoadFrom, ReadSnapshot, ReadWal, FromCanonical, ProtocolGenesis;
      bad, boot, loaded := None, Ok, EMPTY_SNAPSHOT;
      var s := if snapshot.Some? then ReadSnapshot(snapshot.value, prims) else Got(EMPTY_SNAPSHOT, []);
      if s.Refused? {
        dag := new KronDag.New();
        bad := Some(s.error);
        return;
      }
      loaded := s.value;
      var txs := ReadLog(wal, prims);
      DecodedIds(wal, prims);
      var records := AsVertices(txs, prims, checks);
      dag, boot := LoadStore(genesis, loaded.faucet, records);
    }
  }

  lemma DecodedIds(b: seq<byte>, prims: Primitives)
    requires NeverNull(prims)
    ensures forall i :: 0 <= i < |ReadWal(b, prims)| ==> ReadWal(b, prims)[i].id != NULL_PARENT
    decreases |b|
  {
    hide NeverNull, ReadRecord, FromCanonical;
    if b != [] {
      var r := ReadRecord(b, WAL_MAGIC, prims);
      if r.Got? {
        DecodedId(r.value, prims);
        DecodedIds(r.rest, prims);
      }
    }
  }

  lemma DecodedId(b: seq<byte>, prims: Primitives)
    requires NeverNull(prims)
    ensures FromCanonical(b, prims).Got? ==> FromCanonical(b, prims).value.id != NULL_PARENT
  {
    hide TakeHead, TakeKey, TakeSignature, TakeNodes, TakeLE, TakeProofs, UnsignedBytes;
  }

  // ---------------------------------------------------------- crash recovery

  /** The log holds the user vertices of `d` in attach order. */
  ghost predicate Logs(ws: seq<SignedTx>, d: Dag, prims: Primitives, checks: Checks) {
    && Grown(d.graph) && |ws| + 1 == |d.graph.order|
    && (forall i :: 0 <= i < |ws| ==> Loggable(ws[i], prims))
    && AsVertices(ws, prims, checks) == Listed(d.graph)[1..]
  }

  /** The boot of a node that holds the first n vertices of `d`, settled by a rebuild. */
  ghost predicate BootsWith(boot: Boot, d: Dag, n: nat, s: DagSnapshot) {
    && Grown(d.graph) && n <= |d.graph.order| && boot == Booted(Loaded(Rebuild(Cut(d, n)).0), s)
    && Rebuild(Cut(d, n)).1 == Ok
    && Grown(Cut(d, n).graph) && Listed(Cut(d, n).graph) == Listed(d.graph)[..n]
  }

  /** `d` with the faucet of a snapshot. */
  ghost function Under(d: Dag, s: DagSnapshot): (e: Dag)
    ensures e.graph == d.graph
  {
    d.(faucet := s.faucet)
  }

  /** What the snapshot file says: nothing before the first one is written. */
  ghost predicate OnDisk(file: Option<seq<byte>>, s: DagSnapshot, prims: Primitives) {
    if file.None? then s == EMPTY_SNAPSHOT else Storable(s) && file.value == SnapshotFile(s, prims)
  }

  /** A node that crashed while its log was being written restarts from any cut of the log and
      from whatever snapshot there is, none or an old one: it holds genesis and exactly the
      vertices whose records are whole, up to the first that carries relay proofs, with the
      ledger and conflicts that a rebuild gives that graph under the snapshot's faucet. */
  lemma CrashRecovery(d: Dag, genesis: DagTransaction, ws: seq<SignedTx>, cut: nat,
                      file: Option<seq<byte>>, s: DagSnapshot, prims: Primitives, checks: Checks)
      returns (k: nat)
    requires Restartable(Under(d, s), genesis) && Logs(ws, d, prims, checks)
    requires cut <= |Log(ws, prims)| && OnDisk(file, s, prims)
    ensures WholeRecords(ws, cut, k, prims)
    ensures BootsWith(BootFrom(genesis, file, Log(ws, prims)[..cut], prims, checks),
                      Under(d, s), Lesser(k, Clean(ws)) + 1, s)
  {
    hide Restartable, Grown, Rebuild, Build, LoadFrom, Listed, ReadWal, ReadSnapshot, Storable, Loggable;
    hide SnapshotFile, Log, AsVertex, Lesser, WholeRecords, Clean;
    assert Under(d, s).faucet == s.faucet;
    OrderInside(d.graph);
    k := WholeRecordsExist(ws, cut, prims);
    var n := CleanRecords(ws, cut, k, prims);
    if file.Some? { SnapshotInverts(s, prims); }
    VerticesPrefix(ws, n, prims, checks);
    RestartFromCut(Under(d, s), genesis, n + 1);
    assert Listed(d.graph)[1..][..n] == Listed(d.graph)[1..n + 1];
  }

  lemma CleanRecords(ws: seq<SignedTx>, cut: nat, k: nat, prims: Primitives) returns (n: nat)
    requires forall i :: 0 <= i < |ws| ==> Loggable(ws[i], prims)
    requires cut <= |Log(ws, prims)| && WholeRecords(ws, cut, k, prims)
    ensures n == Lesser(k, Clean(ws)) <= |ws| && ReadWal(Log(ws, prims)[..cut], prims) == ws[..n]
  {
    hide ReadWal, Loggable, Log;
    n := Lesser(k, Clean(ws));
    TornLog(ws, cut, k, prims);
  }

  lemma VerticesPrefix(ws: seq<SignedTx>, k: nat, prims: Primitives, checks: Checks)
    requires k <= |ws|
    ensures AsVertices(ws[..k], prims, checks) == AsVertices(ws, prims, checks)[..k]
  {
    hide AsVertex;
  }

  /** A snapshot whose body or checksum was altered on disk is refused, whatever the log says. */
  lemma AlteredSnapshot(genesis: DagTransaction, body: seq<byte>, sum: seq<byte>, rest: seq<byte>,
                        wal: seq<byte>, prims: Primitives, checks: Checks)
    requires |body| < Pow256(4) && |sum| == 32 && prims.sha(body) != FromBE(sum)
    ensures BootFrom(genesis, Some(Framed(SNAP_MAGIC, body, sum) + rest), wal, prims, checks)
         == BadSnapshot(Corrupt("checksum mismatch"))
  {
    hide LoadFrom, ReadRecord, Framed, ReadWal, Pow256, FromBE, TakeSnapshot;
    FrameExact(SNAP_MAGIC, body, sum, rest, prims);
  }

  /** With a record whose body or checksum was altered on disk a node boots as if the log had
      ended before it. */
  lemma AlteredRecord(genesis: DagTransaction, file: Option<seq<byte>>, ws: seq<SignedTx>,
                      body: seq<byte>, sum: seq<byte>, rest: seq<byte>, prims: Primitives, checks: Checks)
    requires forall i :: 0 <= i < |ws| ==> Loggable(ws[i], prims)
    requires |body| < Pow256(4) && |sum| == 32 && prims.sha(body) != FromBE(sum)
    ensures BootFrom(genesis, file, Log(ws, prims) + (Framed(WAL_MAGIC, body, sum) + rest), prims, checks)
         == BootFrom(genesis, file, Log(ws, prims), prims, checks)
  {
    hide LoadFrom, ReadSnapshot, Framed, ReadWal, Log, Loggable, Pow256, FromBE, Clean, AsVertex;
    AlteredLog(ws, body, sum, rest, prims);
    LogExact(ws, prims);
  }

  /** Without a torn write a restart loses no vertex if and only if none that was logged carries
      relay proofs; otherwise it loses the first that does and everything logged after it. */
  lemma CleanRestart(d: Dag, genesis: DagTransaction, ws: seq<SignedTx>,
                     file: Option<seq<byte>>, s: DagSnapshot, prims: Primitives, checks: Checks)
    requires Restartable(Under(d, s), genesis) && Logs(ws, d, prims, checks)
    requires OnDisk(file, s, prims)
    ensures var boot, e := BootFrom(genesis, file, Log(ws, prims), prims, checks), Under(d, s);
      && BootsWith(boot, e, Clean(ws) + 1, s)
      && (boot == Booted(Loaded(Rebuild(e).0), s) <==> forall i :: 0 <= i < |ws| ==> ws[i].relayProofs == [])
    ensures Rebuild(Under(d, s)).0.graph == d.graph
  {
    hide Restartable, Grown, Rebuild, Log, OnDisk, BootFrom, BootsWith, WholeRecords, Lesser, Clean, Logs, Under;
    hide LoadFrom, Listed, SnapshotFile, Loggable;
    var all, e := Log(ws, prims), Under(d, s);
    assert all[..|all|] == all;
    LogsLength(ws, d, prims, checks);
    var k := CrashRecovery(d, genesis, ws, |all|, file, s, prims, checks);
    AllWhole(ws, k, prims);
    RestartRestores(e, genesis);
    SameBoot(BootFrom(genesis, file, all, prims, checks), e, Clean(ws) + 1, s);
    CleanAll(ws);
  }

  lemma LogsLength(ws: seq<SignedTx>, d: Dag, prims: Primitives, checks: Checks)
    requires Logs(ws, d, prims, checks)
    ensures |ws| + 1 == |d.graph.order|
  {
    hide Grown, Loggable;
  }

  /** A whole log consists of whole records. */
  lemma AllWhole(ws: seq<SignedTx>, k: nat, prims: Primitives)
    requires WholeRecords(ws, |Log(ws, prims)|, k, prims)
    ensures k == |ws| && Lesser(k, Clean(ws)) == Clean(ws)
  {
    hide Log;
    if k < |ws| { LogGrows(ws, k + 1, prims); }
  }

  lemma CleanAll(ws: seq<SignedTx>)
    ensures Clean(ws) <= |ws| && (Clean(ws) == |ws| <==> forall i :: 0 <= i < |ws| ==> ws[i].relayProofs == [])
  {}

  /** A boot with fewer vertices is another boot. */
  lemma SameBoot(boot: Boot, e: Dag, n: nat, s: DagSnapshot)
    requires BootsWith(boot, e, n, s) && n >= 1 && Rebuild(e).0.graph == e.graph
    ensures boot == Booted(Loaded(Rebuild(e).0), s) <==> n == |e.graph.order|
  {
    hide Grown, Rebuild, Listed, Cut;
    CutShorter(e, n);
  }

  lemma CutShorter(d: Dag, k: nat)
    requires Grown(d.graph) && 1 <= k <= |d.graph.order|
    ensures k == |d.graph.order| ==> Cut(d, k) == d
    ensures Rebuild(Cut(d, k)).0.graph == d.graph ==> k == |d.graph.order|
  {
    GrownLength(d, k);
    hide Grown, Admitted, Build, Rebuild, Listed;
    RebuildOnly(Cut(d, k));
  }

  lemma GrownLength(d: Dag, k: nat)
    requires Grown(d.graph) && 1 <= k <= |d.graph.order|
    ensures |Cut(d, k).graph.order| == k && (k == |d.graph.order| ==> Cut(d, k) == d)
  {
    var txs := Listed(d.graph);
    PrefixLength(txs, k);
    assert txs[..|txs|] == txs;
  }

  /** The faucet in a snapshot file that a run left behind: none, or written where `e` was. */
  ghost predicate LeftBehind(file: Option<seq<byte>>, e: Dag, prims: Primitives) {
    file.Some? ==> Ranged(e) && Storable(SnapshotOf(e)) && file.value == SnapshotFile(SnapshotOf(e), prims)
  }

  ghost predicate Lived(genesis: DagTransaction, steps: seq<Step>, e: Dag) {
    ProtocolGenesis(genesis) && AllowedRun(WithGenesis(genesis), steps) && e == Run(WithGenesis(genesis), steps)
  }

  /** Whenever a live node crashes, with no snapshot yet or with one from any earlier point of its
      run, it restarts: what it may lose besides torn records and what follows relay proofs is
      the faucet credits since that point. */
  lemma LiveCrash(genesis: DagTransaction, steps: seq<Step>, later: seq<Step>, e: Dag, d: Dag,
                  ws: seq<SignedTx>, cut: nat,
                  file: Option<seq<byte>>, prims: Primitives, checks: Checks)
      returns (k: nat, s: DagSnapshot)
    requires Lived(genesis, steps, e) && AllowedRun(e, later) && d == Run(e, later) && Restartable(d, genesis)
    requires LeftBehind(file, e, prims) && Logs(ws, d, prims, checks) && cut <= |Log(ws, prims)|
    ensures WholeRecords(ws, cut, k, prims) && s.faucet == if file.None? then map[] else e.faucet
    ensures file.Some? ==> Shows(s, e)
    ensures BootsWith(BootFrom(genesis, file, Log(ws, prims)[..cut], prims, checks),
                      Under(d, s), Lesser(k, Clean(ws)) + 1, s)
  {
    hide Run, AllowedRun, WithGenesis, ProtocolGenesis, Restartable, Grown, Logs, Log, WholeRecords;
    hide BootFrom, BootsWith;
    hide Storable, SnapshotFile, Ranged, Clean, Lesser;
    EarlierFaucet(genesis, steps, later);
    s := if file.None? then EMPTY_SNAPSHOT else SnapshotOf(e);
    k := CrashRecovery(d, genesis, ws, cut, file, s, prims, checks);
  }
}
