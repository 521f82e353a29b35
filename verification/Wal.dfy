/** Checksummed records, the vertex log and the snapshot file (src/persist.rs). */
module Wal {
  import opened Basics
  import opened Bytes
  import opened Codec

  const WAL_MAGIC: seq<byte> := [0x4B, 0x52, 0x44, 0x57]
  const SNAP_MAGIC: seq<byte> := [0x4B, 0x52, 0x44, 0x53]
  const VERSION: byte := 1

  function Record(magic: seq<byte>, body: seq<byte>, prims: Primitives): seq<byte> {
    magic + [VERSION] + LE(|body|, 4) + body + BE(prims.sha(body), 32)
  }

  function ReadRecord(b: seq<byte>, magic: seq<byte>, prims: Primitives): (r: Parsed<seq<byte>>)
    requires |magic| == 4
    ensures r.Got? ==> |r.rest| < |b|
  {
    if |b| < 4 + 1 + 4 + 32 then Refused(Corrupt("short record"))
    else if b[..4] != magic then Refused(Corrupt("bad magic"))
    else if b[4] != VERSION then Refused(Corrupt("unsupported version"))
    else
      var n := FromLE(b[5..9]);
      if |b| < 9 + n + 32 then Refused(Corrupt("truncated body"))
      else if BE(prims.sha(b[9..9 + n]), 32) != b[9 + n..9 + n + 32] then Refused(Corrupt("checksum mismatch"))
      else Got(b[9..9 + n], b[9 + n + 32..])
  }

  lemma ReadsRecord(magic: seq<byte>, body: seq<byte>, rest: seq<byte>, prims: Primitives)
    requires |magic| == 4 && |body| < Pow256(4)
    ensures ReadRecord(Record(magic, body, prims) + rest, magic, prims) == Got(body, rest)
  {
    var b, n := Record(magic, body, prims) + rest, |body|;
    LERead(n, 4);
    assert b[..4] == magic && b[5..9] == LE(n, 4) && b[9..9 + n] == body;
    assert b[9 + n..9 + n + 32] == BE(prims.sha(body), 32) && b[9 + n + 32..] == rest;
  }

  /** No proper prefix of a record reads as one. */
  lemma TornRecord(magic: seq<byte>, body: seq<byte>, cut: nat, prims: Primitives)
    requires |magic| == 4 && |body| < Pow256(4) && cut < |Record(magic, body, prims)|
    ensures ReadRecord(Record(magic, body, prims)[..cut], magic, prims).Refused?
  {
    var whole, n := Record(magic, body, prims), |body|;
    var b := whole[..cut];
    if cut >= 41 {
      LERead(n, 4);
      assert whole[..4] == magic && whole[5..9] == LE(n, 4);
      assert b[..4] == whole[..4] && b[5..9] == whole[5..9];
    }
  }

  /** A frame around a body, whatever stands where the checksum belongs. */
  function Framed(magic: seq<byte>, body: seq<byte>, sum: seq<byte>): seq<byte> {
    magic + [1] + LE(|body|, 4) + body + sum
  }

  /** A record is the frame with the body's own digest, big-endian. */
  lemma RecordIs(magic: seq<byte>, body: seq<byte>, prims: Primitives)
    ensures Record(magic, body, prims) == Framed(magic, body, BE(prims.sha(body), 32))
  {}

  lemma FrameParts(magic: seq<byte>, body: seq<byte>, sum: seq<byte>, rest: seq<byte>)
    requires |magic| == 4 && |sum| == 32
    ensures var b, n := Framed(magic, body, sum) + rest, |body|;
      && |b| >= 41 + n && b[..4] == magic && b[4] == 1 && b[5..9] == LE(n, 4) && b[9..9 + n] == body
      && b[9 + n..9 + n + 32] == sum && b[9 + n + 32..] == rest
  {}

  /** A frame reads if and only if its last 32 bytes are the digest of its body; any other is
      reported as a checksum mismatch. */
  lemma FrameExact(magic: seq<byte>, body: seq<byte>, sum: seq<byte>, rest: seq<byte>, prims: Primitives)
    requires |magic| == 4 && |body| < Pow256(4) && |sum| == 32
    ensures ReadRecord(Framed(magic, body, sum) + rest, magic, prims)
         == if prims.sha(body) == FromBE(sum) then Got(body, rest) else Refused(Corrupt("checksum mismatch"))
  {
    FrameParts(magic, body, sum, rest);
    LERead(|body|, 4);
    BEWrites(sum);
    BERead(prims.sha(body), 32);
    hide Framed, LE, BE, Pow256, FromLE, FromBE;
  }

  /** Bytes read as a body and a rest if and only if they are the record of that body and the
      rest: nothing that a writer did not frame, digest included, is ever read. */
  lemma ReadRecordExact(b: seq<byte>, magic: seq<byte>, body: seq<byte>, rest: seq<byte>, prims: Primitives)
    requires |magic| == 4
    ensures ReadRecord(b, magic, prims) == Got(body, rest) <==>
      |body| < Pow256(4) && b == Record(magic, body, prims) + rest
  {
    if |body| < Pow256(4) && b == Record(magic, body, prims) + rest { ReadsRecord(magic, body, rest, prims); }
    if ReadRecord(b, magic, prims) == Got(body, rest) {
      var n := FromLE(b[5..9]);
      LEWrites(b[5..9]);
      FromLEBelow(b[5..9]);
      Sliced(b, n);
      RecordIs(magic, body, prims);
      hide LE, FromLE, BE, Pow256, Framed, Record;
    }
  }

  lemma Sliced(b: seq<byte>, n: nat)
    requires |b| >= 41 + n && b[4] == 1 && LE(n, 4) == b[5..9]
    ensures b == Framed(b[..4], b[9..9 + n], b[9 + n..9 + n + 32]) + b[9 + n + 32..]
  {
    hide LE;
  }

  // -------------------------------------------------------------------- log

  /** The vertices of a log, up to the first record that does not read. */
  function ReadWal(b: seq<byte>, prims: Primitives): seq<SignedTx>
    decreases |b|
  {
    if b == [] then []
    else
      match ReadRecord(b, WAL_MAGIC, prims)
      case Refused(_) => []
      case Got(body, rest) =>
        match FromCanonical(body, prims)
        case Refused(_) => []
        case Got(tx, _) => [tx] + ReadWal(rest, prims)
  }

  function Entry(tx: SignedTx, prims: Primitives): seq<byte> {
    Record(WAL_MAGIC, CanonicalBytes(tx), prims)
  }

  /** The log after appending `txs` one by one. */
  function Log(txs: seq<SignedTx>, prims: Primitives): seq<byte> {
    if txs == [] then [] else Entry(txs[0], prims) + Log(txs[1..], prims)
  }

  lemma {:induction false} LogMore(txs: seq<SignedTx>, tx: SignedTx, prims: Primitives)
    ensures Log(txs + [tx], prims) == Log(txs, prims) + Entry(tx, prims)
  {
    hide Entry;
    if txs == [] {
      assert Log([tx], prims) == Entry(tx, prims) + Log([], prims);
    } else {
      LogMore(txs[1..], tx, prims);
      assert (txs + [tx])[1..] == txs[1..] + [tx];
    }
  }

  /** A vertex as a node holds it: sealed, with a body whose length fits its field. */
  predicate Loggable(tx: SignedTx, prims: Primitives) {
    Encodable(tx, prims) && |CanonicalBytes(tx)| < Pow256(4)
  }

  /** How many vertices come before the first that carries relay proofs. */
  function Clean(txs: seq<SignedTx>): (n: nat)
    ensures n <= |txs| && (forall i :: 0 <= i < n ==> txs[i].relayProofs == [])
    ensures n < |txs| ==> txs[n].relayProofs != []
  {
    if txs == [] || txs[0].relayProofs != [] then 0 else 1 + Clean(txs[1..])
  }

  /** A record is read back, unless its vertex carries relay proofs: then reading stops there. */
  lemma ReadsEntry(tx: SignedTx, rest: seq<byte>, prims: Primitives)
    requires Loggable(tx, prims)
    ensures ReadWal(Entry(tx, prims) + rest, prims) == if tx.relayProofs == [] then [tx] + ReadWal(rest, prims) else []
  {
    hide FromCanonical, CanonicalBytes, Encodable, ReadRecord;
    ReadsRecord(WAL_MAGIC, CanonicalBytes(tx), rest, prims);
    DecodeInverts(tx, [], prims);
    assert CanonicalBytes(tx) + [] == CanonicalBytes(tx);
    EntryNotEmpty(tx, prims);
  }

  lemma EntryNotEmpty(tx: SignedTx, prims: Primitives)
    ensures |Entry(tx, prims)| == 41 + |CanonicalBytes(tx)|
  {
    hide CanonicalBytes;
  }

  /** Log records start with "KRDW" and version 1, the snapshot file with "KRDS" and version 1. */
  lemma FileHeaders(tx: SignedTx, s: DagSnapshot, prims: Primitives)
    ensures |Entry(tx, prims)| > 5 && Entry(tx, prims)[..5] == [0x4B, 0x52, 0x44, 0x57, 1]
    ensures |SnapshotFile(s, prims)| > 5 && SnapshotFile(s, prims)[..5] == [0x4B, 0x52, 0x44, 0x53, 1]
  {
    hide CanonicalBytes, SnapshotBytes, LE, BE;
  }

  /** The records of the first k vertices are a prefix of the log. */
  lemma LogSplit(txs: seq<SignedTx>, k: nat, prims: Primitives)
    requires 0 < k <= |txs|
    ensures Log(txs[..k], prims) == Entry(txs[0], prims) + Log(txs[1..][..k - 1], prims)
  {
    assert txs[..k][1..] == txs[1..][..k - 1];
  }

  lemma {:induction false} LogGrows(txs: seq<SignedTx>, k: nat, prims: Primitives)
    requires k <= |txs|
    ensures |Log(txs[..k], prims)| <= |Log(txs, prims)|
  {
    hide Entry;
    if k == 0 {
      assert txs[..0] == [];
    } else {
      LogSplit(txs, k, prims);
      LogGrows(txs[1..], k - 1, prims);
    }
  }

  /** Exactly the first k records lie wholly inside the first `cut` bytes of the log. */
  ghost predicate WholeRecords(txs: seq<SignedTx>, cut: nat, k: nat, prims: Primitives) {
    && k <= |txs| && |Log(txs[..k], prims)| <= cut
    && (k < |txs| ==> cut < |Log(txs[..k + 1], prims)|)
  }

  /** Behind a whole first record lies a torn log of the others. */
  lemma TornRest(txs: seq<SignedTx>, cut: nat, k: nat, prims: Primitives)
    requires k > 0 && cut <= |Log(txs, prims)| && WholeRecords(txs, cut, k, prims)
    ensures k <= |txs|
    ensures var first, others := Entry(txs[0], prims), Log(txs[1..], prims);
      && |first| <= cut <= |first| + |others| && WholeRecords(txs[1..], cut - |first|, k - 1, prims)
      && Log(txs, prims)[..cut] == first + others[..cut - |first|]
  {
    hide Entry;
    LogSplit(txs, k, prims);
    if k < |txs| { LogSplit(txs, k + 1, prims); }
  }

  /** Reading a log cut anywhere yields exactly the vertices whose records are whole, up to the
      first that carries relay proofs. */
  lemma {:induction false} TornLog(txs: seq<SignedTx>, cut: nat, k: nat, prims: Primitives)
    requires forall i :: 0 <= i < |txs| ==> Loggable(txs[i], prims)
    requires cut <= |Log(txs, prims)| && WholeRecords(txs, cut, k, prims)
    ensures ReadWal(Log(txs, prims)[..cut], prims) == txs[..Lesser(k, Clean(txs))]
    decreases |txs|
  {
    hide Entry, ReadWal, Loggable, Clean, Log, Lesser, WholeRecords;
    if k == 0 {
      TornFirst(txs, cut, prims);
      NoneRead(txs);
    } else {
      TornRest(txs, cut, k, prims);
      FirstRead(txs, cut, k, prims);
      CleanMore(txs, k);
      TornLog(txs[1..], cut - |Entry(txs[0], prims)|, k - 1, prims);
    }
  }

  lemma NoneRead(txs: seq<SignedTx>)
    ensures txs[..Lesser(0, Clean(txs))] == []
  {}

  lemma FirstRead(txs: seq<SignedTx>, cut: nat, k: nat, prims: Primitives)
    requires txs != [] && k > 0 && Loggable(txs[0], prims) && cut <= |Log(txs, prims)|
    requires WholeRecords(txs, cut, k, prims)
    ensures var rest := cut - |Entry(txs[0], prims)|;
      && 0 <= rest <= |Log(txs[1..], prims)|
      && ReadWal(Log(txs, prims)[..cut], prims)
         == if txs[0].relayProofs == [] then [txs[0]] + ReadWal(Log(txs[1..], prims)[..rest], prims) else []
  {
    hide ReadWal, Loggable, Entry;
    TornRest(txs, cut, k, prims);
    ReadsEntry(txs[0], Log(txs[1..], prims)[..cut - |Entry(txs[0], prims)|], prims);
  }

  /** With no whole record nothing is read. */
  lemma TornFirst(txs: seq<SignedTx>, cut: nat, prims: Primitives)
    requires forall i :: 0 <= i < |txs| ==> Loggable(txs[i], prims)
    requires cut <= |Log(txs, prims)| && WholeRecords(txs, cut, 0, prims)
    ensures ReadWal(Log(txs, prims)[..cut], prims) == []
  {
    hide Entry, ReadWal, Loggable;
    EmptyLog(prims);
    if txs != [] {
      var first := Entry(txs[0], prims);
      LogSplit(txs, 1, prims);
      assert txs[1..][..0] == [] && cut < |first|;
      assert Log(txs, prims)[..cut] == first[..cut];
      TornEntry(txs[0], cut, prims);
    }
  }

  lemma CleanMore(txs: seq<SignedTx>, k: nat)
    requires 0 < k <= |txs|
    ensures txs[0].relayProofs != [] ==> txs[..Lesser(k, Clean(txs))] == []
    ensures txs[0].relayProofs == [] ==>
      txs[..Lesser(k, Clean(txs))] == [txs[0]] + txs[1..][..Lesser(k - 1, Clean(txs[1..]))]
  {
    if txs[0].relayProofs == [] {
      var n := Lesser(k - 1, Clean(txs[1..]));
      assert Lesser(k, Clean(txs)) == n + 1;
      hide Clean, Lesser;
      TakeCons(txs, n);
    }
  }

  lemma TakeCons<T>(s: seq<T>, n: nat)
    requires n < |s|
    ensures s[..n + 1] == [s[0]] + s[1..][..n]
  {}

  /** A whole log reads back in full if and only if no vertex in it carries relay proofs. */
  lemma LogExact(txs: seq<SignedTx>, prims: Primitives)
    requires forall i :: 0 <= i < |txs| ==> Loggable(txs[i], prims)
    ensures ReadWal(Log(txs, prims), prims) == txs[..Clean(txs)]
    ensures ReadWal(Log(txs, prims), prims) == txs <==> forall i :: 0 <= i < |txs| ==> txs[i].relayProofs == []
  {
    hide Log, Loggable, ReadWal;
    var all := Log(txs, prims);
    assert txs[..|txs|] == txs && all[..|all|] == all;
    TornLog(txs, |all|, |txs|, prims);
  }

  /** A record whose body or checksum was altered on disk ends the log: what stands before it is
      read, it and what follows are not. */
  lemma {:induction false} AlteredLog(txs: seq<SignedTx>, body: seq<byte>, sum: seq<byte>, rest: seq<byte>,
                                      prims: Primitives)
    requires forall i :: 0 <= i < |txs| ==> Loggable(txs[i], prims)
    requires |body| < Pow256(4) && |sum| == 32 && prims.sha(body) != FromBE(sum)
    ensures ReadWal(Log(txs, prims) + (Framed(WAL_MAGIC, body, sum) + rest), prims) == txs[..Clean(txs)]
  {
    hide Framed, Entry, Loggable, Pow256, ReadWal, FromBE, Clean;
    var bad := Framed(WAL_MAGIC, body, sum) + rest;
    CleanCons(txs);
    if txs == [] {
      assert Log([], prims) + bad == bad;
      AlteredFirst(body, sum, rest, prims);
    } else {
      assert Log(txs, prims) + bad == Entry(txs[0], prims) + (Log(txs[1..], prims) + bad);
      ReadsEntry(txs[0], Log(txs[1..], prims) + bad, prims);
      AlteredLog(txs[1..], body, sum, rest, prims);
    }
  }

  lemma AlteredFirst(body: seq<byte>, sum: seq<byte>, rest: seq<byte>, prims: Primitives)
    requires |body| < Pow256(4) && |sum| == 32 && prims.sha(body) != FromBE(sum)
    ensures ReadWal(Framed(WAL_MAGIC, body, sum) + rest, prims) == []
  {
    hide Framed, ReadRecord, Pow256, FromBE, FromCanonical;
    FrameExact(WAL_MAGIC, body, sum, rest, prims);
  }

  lemma CleanCons(txs: seq<SignedTx>)
    ensures txs == [] ==> txs[..Clean(txs)] == []
    ensures txs != [] ==>
      txs[..Clean(txs)] == if txs[0].relayProofs == [] then [txs[0]] + txs[1..][..Clean(txs[1..])] else []
  {}

  lemma EmptyLog(prims: Primitives)
    ensures Log([], prims) == [] && ReadWal([], prims) == []
  {}

  lemma TornEntry(tx: SignedTx, cut: nat, prims: Primitives)
    requires Loggable(tx, prims) && cut < |Entry(tx, prims)|
    ensures ReadWal(Entry(tx, prims)[..cut], prims) == []
  {
    hide CanonicalBytes, Encodable, ReadRecord;
    TornRecord(WAL_MAGIC, CanonicalBytes(tx), cut, prims);
  }

  /** Every cut leaves some number of whole records. */
  lemma {:induction false} WholeRecordsExist(txs: seq<SignedTx>, cut: nat, prims: Primitives) returns (k: nat)
    ensures WholeRecords(txs, cut, k, prims)
  {
    hide Entry;
    EmptyLog(prims);
    assert txs[..0] == [];
    k := |txs|;
    while |Log(txs[..k], prims)| > cut
      invariant k <= |txs| && (k < |txs| ==> cut < |Log(txs[..k + 1], prims)|)
      decreases k
    {
      k := k - 1;
    }
  }

  /** `read_wal`'s loop over an offset. */
  method ReadLog(bytes: seq<byte>, prims: Primitives) returns (out: seq<SignedTx>)
    ensures out == ReadWal(bytes, prims)
  {
    hide FromCanonical, ReadRecord;
    out := [];
    var off := 0;
    assert bytes[0..] == bytes;
    while off < |bytes|
      invariant off <= |bytes| && ReadWal(bytes, prims) == out + ReadWal(bytes[off..], prims)
      decreases |bytes| - off
    {
      var body;
      ghost var at := off;
      body, off := ReadRecordAt(bytes, off, WAL_MAGIC, prims);
      if body.Refused? {
        return;
      }
      var tx := ReadCanonical(body.value, prims);
      if tx.Refused? {
        return;
      }
      out := out + [tx.value];
      assert ReadWal(bytes[at..], prims) == [tx.value] + ReadWal(bytes[off..], prims);
    }
  }

  method ReadRecordAt(bytes: seq<byte>, off0: nat, magic: seq<byte>, prims: Primitives)
      returns (r: Parsed<seq<byte>>, off: nat)
    requires off0 <= |bytes| && |magic| == 4
    ensures r == ReadRecord(bytes[off0..], magic, prims)
    ensures off <= |bytes| && (r.Got? ==> off > off0 && r.rest == bytes[off..])
  {
    hide FromLE;
    off := off0;
    ghost var b := bytes[off0..];
    if |bytes| < off + 4 + 1 + 4 + 32 {
      return Refused(Corrupt("short record")), off;
    }
    assert b[..4] == bytes[off..off + 4] && b[5..9] == bytes[off + 5..off + 9];
    if bytes[off..off + 4] != magic {
      return Refused(Corrupt("bad magic")), off;
    }
    off := off + 4;
    if bytes[off] != VERSION {
      return Refused(Corrupt("unsupported version")), off;
    }
    off := off + 1;
    var n := FromLE(bytes[off..off + 4]);
    off := off + 4;
    if |bytes| < off + n + 32 {
      return Refused(Corrupt("truncated body")), off;
    }
    var body := bytes[off..off + n];
    off := off + n;
    var sum := bytes[off..off + 32];
    off := off + 32;
    assert b[9..9 + n] == body && b[9 + n..9 + n + 32] == sum && b[9 + n + 32..] == bytes[off..];
    if BE(prims.sha(body), 32) != sum {
      return Refused(Corrupt("checksum mismatch")), off;
    }
    r := Got(body, bytes[off..]);
  }

  // --------------------------------------------------------------- snapshot

  datatype DagSnapshot = DagSnapshot(
    supply: u64, txCount: u64, vertexCount: u64,
    accounts: map<Digest, u64>, faucet: map<Digest, u64>, tips: seq<Digest>)

  const EMPTY_SNAPSHOT := DagSnapshot(0, 0, 0, map[], map[], [])

  /** The entries of `m` under `keys`, in that order. */
  function EntryBytes(m: map<Digest, u64>, keys: seq<Digest>): seq<byte>
    requires forall i :: 0 <= i < |keys| ==> keys[i] in m
  {
    if keys == [] then []
    else
      var last := keys[|keys| - 1];
      EntryBytes(m, keys[..|keys| - 1]) + (BE(last, 32) + LE(m[last], 8))
  }

  /** The keys of a `BTreeMap`, in order. */
  function OrderedKeys(m: map<Digest, u64>): (r: seq<Digest>)
    ensures Increasing(r) && ToSet(r) == m.Keys && |r| == |m.Keys| && forall i :: 0 <= i < |r| ==> r[i] in m
  {
    var s := Sorted(m.Keys);
    assert forall i :: 0 <= i < |s| ==> s[i] in ToSet(s);
    s
  }

  function AccountBytes(m: map<Digest, u64>): seq<byte> {
    LE(|OrderedKeys(m)|, 4) + EntryBytes(m, OrderedKeys(m))
  }

  function TakeEntries(b: seq<byte>, n: nat): Parsed<map<Digest, u64>> {
    if n == 0 then Got(map[], b)
    else
      var (m, b1) :- TakeEntries(b, n - 1);
      var (address, b2) :- TakeHash(b1, Corrupt("hash"));
      var (balance, b3) :- TakeU64(b2, Corrupt("u64"));
      Got(m[address := balance], b3)
  }

  function TakeAccounts(b: seq<byte>): Parsed<map<Digest, u64>> {
    var (n, b1) :- TakeLE(b, 4, Corrupt("u32"));
    TakeEntries(b1, n)
  }

  function SnapshotBytes(s: DagSnapshot): seq<byte> {
    LE(s.supply, 8) + LE(s.txCount, 8) + LE(s.vertexCount, 8)
    + AccountBytes(s.accounts) + AccountBytes(s.faucet)
    + LE(|s.tips|, 4) + NodeBytes(s.tips)
  }

  function TakeSnapshot(b: seq<byte>): Parsed<DagSnapshot> {
    var (supply, b1) :- TakeU64(b, Corrupt("u64"));
    var (txCount, b2) :- TakeU64(b1, Corrupt("u64"));
    var (vertexCount, b3) :- TakeU64(b2, Corrupt("u64"));
    var (accounts, b4) :- TakeAccounts(b3);
    var (faucet, b5) :- TakeAccounts(b4);
    var (n, b6) :- TakeLE(b5, 4, Corrupt("u32"));
    var (tips, b7) :- TakeNodes(b6, n, Corrupt("hash"));
    Got(DagSnapshot(supply, txCount, vertexCount, accounts, faucet, tips), b7)
  }

  function SnapshotFile(s: DagSnapshot, prims: Primitives): seq<byte> {
    Record(SNAP_MAGIC, SnapshotBytes(s), prims)
  }

  function ReadSnapshot(bytes: seq<byte>, prims: Primitives): Parsed<DagSnapshot> {
    var (body, _) :- ReadRecord(bytes, SNAP_MAGIC, prims);
    TakeSnapshot(body)
  }

  ghost predicate Storable(s: DagSnapshot) {
    |s.accounts| < Pow256(4) && |s.faucet| < Pow256(4) && |s.tips| < Pow256(4) && |SnapshotBytes(s)| < Pow256(4)
  }

  ghost function Selected(m: map<Digest, u64>, keys: seq<Digest>): map<Digest, u64> {
    map k | k in m && k in keys :: m[k]
  }

  lemma {:induction false} TakesEntries(m: map<Digest, u64>, keys: seq<Digest>, rest: seq<byte>)
    requires forall i :: 0 <= i < |keys| ==> keys[i] in m
    ensures TakeEntries(EntryBytes(m, keys) + rest, |keys|) == Got(Selected(m, keys), rest)
  {
    hide TakeHash, TakeU64;
    if keys == [] {
      assert EntryBytes(m, keys) + rest == rest;
    } else {
      var n := |keys| - 1;
      var p, last := keys[..n], keys[n];
      assert keys == p + [last];
      var tail := LE(m[last], 8) + rest;
      assert EntryBytes(m, keys) + rest == EntryBytes(m, p) + (BE(last, 32) + tail);
      TakesEntries(m, p, BE(last, 32) + tail);
      TakesHash(last, tail, Corrupt("hash"));
      TakesU64(m[last], rest, Corrupt("u64"));
      assert Selected(m, keys) == Selected(m, p)[last := m[last]];
    }
  }

  lemma TakesAccounts(m: map<Digest, u64>, rest: seq<byte>)
    requires |m| < Pow256(4)
    ensures TakeAccounts(AccountBytes(m) + rest) == Got(m, rest)
  {
    hide TakeEntries, TakeLE, LE, EntryBytes, OrderedKeys, Sorted, Increasing, Selected;
    var keys := OrderedKeys(m);
    var entries := EntryBytes(m, keys) + rest;
    assert |m.Keys| == |m|;
    assert AccountBytes(m) + rest == LE(|keys|, 4) + entries;
    TakesLE(|keys|, 4, entries, Corrupt("u32"));
    TakesEntries(m, keys, rest);
    SelectsAll(m, keys);
  }

  lemma SelectsAll(m: map<Digest, u64>, keys: seq<Digest>)
    requires ToSet(keys) == m.Keys
    ensures Selected(m, keys) == m
  {
    assert forall k :: k in m ==> k in ToSet(keys);
  }

  lemma SnapshotRegrouped(s: DagSnapshot, rest: seq<byte>)
    ensures SnapshotBytes(s) + rest
         == LE(s.supply, 8) + (LE(s.txCount, 8) + (LE(s.vertexCount, 8)
            + (AccountBytes(s.accounts) + (AccountBytes(s.faucet) + (LE(|s.tips|, 4) + (NodeBytes(s.tips) + rest))))))
  {
    hide LE, AccountBytes, NodeBytes;
  }

  lemma TakesSnapshot(s: DagSnapshot, rest: seq<byte>)
    requires Storable(s)
    ensures TakeSnapshot(SnapshotBytes(s) + rest) == Got(s, rest)
  {
    hide TakeU64, TakeAccounts, TakeLE, TakeNodes, SnapshotBytes, AccountBytes, NodeBytes, LE;
    var r6 := NodeBytes(s.tips) + rest;
    var r5 := LE(|s.tips|, 4) + r6;
    var r4 := AccountBytes(s.faucet) + r5;
    var r3 := AccountBytes(s.accounts) + r4;
    var r2 := LE(s.vertexCount, 8) + r3;
    var r1 := LE(s.txCount, 8) + r2;
    SnapshotRegrouped(s, rest);
    TakesU64(s.supply, r1, Corrupt("u64"));
    TakesU64(s.txCount, r2, Corrupt("u64"));
    TakesU64(s.vertexCount, r3, Corrupt("u64"));
    TakesAccounts(s.accounts, r4);
    TakesAccounts(s.faucet, r5);
    TakesLE(|s.tips|, 4, r6, Corrupt("u32"));
    TakesNodes(s.tips, rest, Corrupt("hash"));
  }

  /** A snapshot file decodes to the snapshot that was written. */
  lemma SnapshotInverts(s: DagSnapshot, prims: Primitives)
    requires Storable(s)
    ensures ReadSnapshot(SnapshotFile(s, prims), prims) == Got(s, [])
  {
    hide SnapshotBytes, ReadRecord, TakeSnapshot;
    var body := SnapshotBytes(s);
    ReadsRecord(SNAP_MAGIC, body, [], prims);
    assert Record(SNAP_MAGIC, body, prims) + [] == Record(SNAP_MAGIC, body, prims);
    TakesSnapshot(s, []);
    assert body + [] == body;
  }
}
