/** `encode_wire` and `decode_wire` (src/p2p/mesh.rs): the messages of a round as bytes, and
    which of them survive. */
module Wire {
  import opened Basics
  import opened Bytes
  import opened Codec
  import opened Spellings
  import opened Reconciliation
  import opened Protocol
  import opened Recovery

  const MK_PING: byte := 2
  const MK_PONG: byte := 3
  const MK_SYNC_INV: byte := 10
  const MK_HAVE: byte := 11
  const MK_NEED: byte := 12
  const MK_DAG_TX: byte := 13
  const MK_DONE: byte := 14

  /** "kron-mesh/1", the payload of a ping that nobody reads. */
  const PROTOCOL: seq<byte> := [0x6B, 0x72, 0x6F, 0x6E, 0x2D, 0x6D, 0x65, 0x73, 0x68, 0x2F, 0x31]

  const BAD_FRAME: ParseError := Corrupt("bad frame")

  /** A message with the vertex it really carries. */
  datatype Packet =
    | PingPacket
    | PongPacket
    | InventoryPacket(tips: seq<Digest>, recent: seq<Digest>, peerId: Option<Digest>)
    | HavePacket(ids: seq<Digest>)
    | NeedPacket(ids: seq<Digest>)
    | BodyPacket(tx: SignedTx)
    | DonePacket

  datatype Frame = Frame(kind: byte, payload: seq<byte>)

  function HashBytes(ids: seq<Digest>): seq<byte> {
    LE(|ids|, 4) + NodeBytes(ids)
  }

  function InventoryBytes(tips: seq<Digest>, recent: seq<Digest>, peerId: Option<Digest>): seq<byte> {
    HashBytes(tips) + HashBytes(recent) + (if peerId.Some? then [1] + BE(peerId.value, 32) else [0])
  }

  function EncodeWire(p: Packet): Frame {
    match p
    case PingPacket => Frame(MK_PING, PROTOCOL)
    case PongPacket => Frame(MK_PONG, PROTOCOL)
    case InventoryPacket(tips, recent, peerId) => Frame(MK_SYNC_INV, InventoryBytes(tips, recent, peerId))
    case HavePacket(ids) => Frame(MK_HAVE, HashBytes(ids))
    case NeedPacket(ids) => Frame(MK_NEED, HashBytes(ids))
    case BodyPacket(tx) => Frame(MK_DAG_TX, CanonicalBytes(tx))
    case DonePacket => Frame(MK_DONE, [])
  }

  /** A list must fit the bound and fill its payload exactly. */
  function DecodeHashes(b: seq<byte>): Parsed<seq<Digest>> {
    var (n, b1) :- TakeLE(b, 4, BAD_FRAME);
    if n > MAX_INVENTORY_HASHES then Refused(BAD_FRAME)
    else if |b| != 4 + n * 32 then Refused(BAD_FRAME)
    else TakeNodes(b1, n, BAD_FRAME)
  }

  function DecodeInventory(b: seq<byte>): Parsed<Packet> {
    var (nt, b1) :- TakeLE(b, 4, BAD_FRAME);
    if nt > MAX_INVENTORY_HASHES || |b| < 4 + nt * 32 + 4 then Refused(BAD_FRAME)
    else
      var (tips, b2) :- TakeNodes(b1, nt, BAD_FRAME);
      var (nr, b3) :- TakeLE(b2, 4, BAD_FRAME);
      if nr > MAX_INVENTORY_HASHES || nt + nr > MAX_INVENTORY_HASHES || |b3| < nr * 32 + 1 then Refused(BAD_FRAME)
      else
        var (recent, b4) :- TakeNodes(b3, nr, BAD_FRAME);
        if |b4| < 1 then Refused(BAD_FRAME)
        else if b4[0] == 1 then
          var (id, b5) :- TakeHash(b4[1..], BAD_FRAME);
          Got(InventoryPacket(tips, recent, Some(id)), b5)
        else if b4[0] == 0 then Got(InventoryPacket(tips, recent, None), b4[1..])
        else Refused(BAD_FRAME)
  }

  function DecodeWire(f: Frame, prims: Primitives): Parsed<Packet> {
    if f.kind == MK_PING then Got(PingPacket, [])
    else if f.kind == MK_PONG then Got(PongPacket, [])
    else if f.kind == MK_SYNC_INV then DecodeInventory(f.payload)
    else if f.kind == MK_HAVE then
      var (ids, rest) :- DecodeHashes(f.payload);
      Got(HavePacket(ids), rest)
    else if f.kind == MK_NEED then
      var (ids, rest) :- DecodeHashes(f.payload);
      Got(NeedPacket(ids), rest)
    else if f.kind == MK_DAG_TX then
      var tx := FromCanonical(f.payload, prims);
      if tx.Refused? then Refused(BAD_FRAME) else Got(BodyPacket(tx.value), tx.rest)
    else if f.kind == MK_DONE then Got(DonePacket, [])
    else Refused(BAD_FRAME)
  }

  // ------------------------------------------------------------- round trip

  /** What a peer puts on the wire: lists whose lengths fit their fields, sealed vertices. */
  predicate Sound(p: Packet, prims: Primitives) {
    match p
    case InventoryPacket(tips, recent, _) => |tips| < Pow256(4) && |recent| < Pow256(4)
    case HavePacket(ids) => |ids| < Pow256(4)
    case NeedPacket(ids) => |ids| < Pow256(4)
    case BodyPacket(tx) => Encodable(tx, prims)
    case _ => true
  }

  /** The protocol message a packet stands for. */
  function AsMessage(p: Packet, prims: Primitives, checks: Checks): Message {
    match p
    case PingPacket => Ping
    case PongPacket => Pong
    case InventoryPacket(tips, recent, peerId) =>
      Inventory(SyncInventory(tips, recent, if peerId.Some? then Some(peerId.value as nat) else None))
    case HavePacket(ids) => Have(ids)
    case NeedPacket(ids) => Need(ids)
    case BodyPacket(tx) => Body(AsVertex(tx, prims, checks))
    case DonePacket => Done
  }

  lemma {:induction false} NodeBytesLength(ids: seq<Digest>)
    ensures |NodeBytes(ids)| == 32 * |ids|
  {
    if ids != [] { NodeBytesLength(ids[1..]); }
  }

  lemma HashesSurvive(ids: seq<Digest>)
    requires |ids| < Pow256(4)
    ensures DecodeHashes(HashBytes(ids)) == if |ids| <= MAX_INVENTORY_HASHES then Got(ids, []) else Refused(BAD_FRAME)
  {
    hide TakeLE, TakeNodes, NodeBytes, LE;
    NodeBytesLength(ids);
    TakesLE(|ids|, 4, NodeBytes(ids), BAD_FRAME);
    TakesNodes(ids, [], BAD_FRAME);
    assert NodeBytes(ids) + [] == NodeBytes(ids);
  }

  lemma PeerIdThen(peerId: Option<Digest>, rest: seq<byte>)
    ensures var b := (if peerId.Some? then [1] + BE(peerId.value, 32) else [0]) + rest;
      && |b| >= 1 && (peerId.Some? ==> b[0] == 1 && TakeHash(b[1..], BAD_FRAME) == Got(peerId.value, rest))
      && (peerId == None ==> b[0] == 0 && b[1..] == rest)
  {
    if peerId.Some? {
      TakesHash(peerId.value, rest, BAD_FRAME);
      assert ([1] + BE(peerId.value, 32) + rest)[1..] == BE(peerId.value, 32) + rest;
    }
  }

  lemma InventorySurvives(tips: seq<Digest>, recent: seq<Digest>, peerId: Option<Digest>)
    requires |tips| < Pow256(4) && |recent| < Pow256(4)
    ensures DecodeInventory(InventoryBytes(tips, recent, peerId))
         == if |tips| + |recent| <= MAX_INVENTORY_HASHES then Got(InventoryPacket(tips, recent, peerId),
                                                                  []) else Refused(BAD_FRAME)
  {
    hide TakeLE, TakeNodes, NodeBytes, LE, BE, TakeHash;
    var last := if peerId.Some? then [1] + BE(peerId.value, 32) else [0];
    var r3 := NodeBytes(recent) + last;
    var r2 := LE(|recent|, 4) + r3;
    var r1 := NodeBytes(tips) + r2;
    assert InventoryBytes(tips, recent, peerId) == LE(|tips|, 4) + r1;
    NodeBytesLength(tips);
    NodeBytesLength(recent);
    PeerIdThen(peerId, []);
    assert last + [] == last;
    TakesLE(|tips|, 4, r1, BAD_FRAME);
    TakesNodes(tips, r2, BAD_FRAME);
    TakesLE(|recent|, 4, r3, BAD_FRAME);
    TakesNodes(recent, last, BAD_FRAME);
  }

  /** A message arrives as it was sent if and only if the protocol model calls it readable;
      any other is a bad frame. */
  lemma WireExact(p: Packet, prims: Primitives, checks: Checks)
    requires Sound(p, prims)
    ensures DecodeWire(EncodeWire(p), prims)
         == if Readable(AsMessage(p, prims, checks)) then Got(p, []) else Refused(BAD_FRAME)
  {
    hide DecodeHashes, DecodeInventory, HashBytes, InventoryBytes, FromCanonical, CanonicalBytes, Encodable;
    match p
    case InventoryPacket(tips, recent, peerId) => InventorySurvives(tips, recent, peerId);
    case HavePacket(ids) => HashesSurvive(ids);
    case NeedPacket(ids) => HashesSurvive(ids);
    case BodyPacket(tx) =>
      DecodeInverts(tx, [], prims);
      assert CanonicalBytes(tx) + [] == CanonicalBytes(tx);
    case _ =>
  }

  // ---------------------------------------------------------- byte by byte

  /** Bytes are a hash list if and only if a writer would have written them for it, and it is
      within the bound: nothing behind the list is tolerated. */
  lemma HashesExact(b: seq<byte>, ids: seq<Digest>, rest: seq<byte>)
    ensures DecodeHashes(b) == Got(ids, rest) <==>
      rest == [] && |ids| <= MAX_INVENTORY_HASHES && b == HashBytes(ids)
  {
    Widths();
    hide NodeBytes, LE, TakeNodes, TakeLE, Pow256;
    if |ids| <= MAX_INVENTORY_HASHES && b == HashBytes(ids) { HashesSurvive(ids); }
    if DecodeHashes(b) == Got(ids, rest) {
      var t := TakeLE(b, 4, BAD_FRAME);
      TakenLE(b, 4, BAD_FRAME);
      TakenNodes(t.rest, t.value, BAD_FRAME);
      NodeBytesLength(ids);
    }
  }

  /** Bytes start with an inventory if and only if they start with what a writer writes for it,
      and its hashes are within the bound together. */
  lemma InventoryExact(b: seq<byte>, tips: seq<Digest>, recent: seq<Digest>, peerId: Option<Digest>, rest: seq<byte>)
    ensures DecodeInventory(b) == Got(InventoryPacket(tips, recent, peerId), rest) <==>
      |tips| + |recent| <= MAX_INVENTORY_HASHES && b == InventoryBytes(tips, recent, peerId) + rest
  {
    hide NodeBytes, LE, BE, TakeNodes, TakeLE, TakeHash, Pow256, InventoryBytes, DecodeInventory;
    if |tips| + |recent| <= MAX_INVENTORY_HASHES && b == InventoryBytes(tips, recent, peerId) + rest {
      InventoryTaken(tips, recent, peerId, rest);
    }
    if DecodeInventory(b) == Got(InventoryPacket(tips, recent, peerId), rest) {
      InventoryWas(b, tips, recent, peerId, rest);
    }
  }

  lemma InventoryTaken(tips: seq<Digest>, recent: seq<Digest>, peerId: Option<Digest>, rest: seq<byte>)
    requires |tips| + |recent| <= MAX_INVENTORY_HASHES
    ensures DecodeInventory(InventoryBytes(tips, recent, peerId) + rest)
         == Got(InventoryPacket(tips, recent, peerId), rest)
  {
    Widths();
    hide TakeLE, TakeNodes, NodeBytes, LE, BE, TakeHash, Pow256;
    var last := (if peerId.Some? then [1] + BE(peerId.value, 32) else [0]) + rest;
    var r3 := NodeBytes(recent) + last;
    var r2 := LE(|recent|, 4) + r3;
    var r1 := NodeBytes(tips) + r2;
    assert InventoryBytes(tips, recent, peerId) + rest == LE(|tips|, 4) + r1;
    NodeBytesLength(tips);
    NodeBytesLength(recent);
    PeerIdThen(peerId, rest);
    TakesLE(|tips|, 4, r1, BAD_FRAME);
    TakesNodes(tips, r2, BAD_FRAME);
    TakesLE(|recent|, 4, r3, BAD_FRAME);
    TakesNodes(recent, last, BAD_FRAME);
  }

  lemma InventoryWas(b: seq<byte>, tips: seq<Digest>, recent: seq<Digest>, peerId: Option<Digest>, rest: seq<byte>)
    requires DecodeInventory(b) == Got(InventoryPacket(tips, recent, peerId), rest)
    ensures |tips| + |recent| <= MAX_INVENTORY_HASHES && b == InventoryBytes(tips, recent, peerId) + rest
  {
    hide TakeLE, TakeNodes, NodeBytes, LE, BE, TakeHash, Pow256;
    TakenLE(b, 4, BAD_FRAME);
    var t := TakeLE(b, 4, BAD_FRAME);
    TakenNodes(t.rest, t.value, BAD_FRAME);
    var b2 := TakeNodes(t.rest, t.value, BAD_FRAME).rest;
    TakenLE(b2, 4, BAD_FRAME);
    var u := TakeLE(b2, 4, BAD_FRAME);
    TakenNodes(u.rest, u.value, BAD_FRAME);
    var b4 := TakeNodes(u.rest, u.value, BAD_FRAME).rest;
    assert b4 == [b4[0]] + b4[1..];
    if b4[0] == 1 { TakenHash(b4[1..], BAD_FRAME); }
    PeerIdWas(b4, peerId, rest);
    InventoryJoined(tips, recent, peerId, rest);
  }

  lemma PeerIdWas(b4: seq<byte>, peerId: Option<Digest>, rest: seq<byte>)
    requires b4 != []
    requires if b4[0] == 1 then peerId.Some? && b4[1..] == BE(peerId.value, 32) + rest
             else b4[0] == 0 && peerId == None && b4[1..] == rest
    ensures b4 == (if peerId.Some? then [1] + BE(peerId.value, 32) else [0]) + rest
  {
    hide BE;
  }

  lemma InventoryJoined(tips: seq<Digest>, recent: seq<Digest>, peerId: Option<Digest>, rest: seq<byte>)
    ensures InventoryBytes(tips, recent, peerId) + rest
         == LE(|tips|, 4) + (NodeBytes(tips) + (LE(|recent|, 4) + (NodeBytes(recent)
            + ((if peerId.Some? then [1] + BE(peerId.value, 32) else [0]) + rest))))
  {
    hide NodeBytes, LE, BE;
  }

  /** The i-th hash of a list stands big-endian at 4 + 32 i, behind their number. */
  lemma HashAt(ids: seq<Digest>, i: nat)
    requires i < |ids| < Pow256(4)
    ensures |HashBytes(ids)| == 4 + 32 * |ids| && FromLE(HashBytes(ids)[..4]) == |ids|
    ensures FromBE(HashBytes(ids)[4 + 32 * i..36 + 32 * i]) == ids[i]
  {
    LERead(|ids|, 4);
    NodeBytesLength(ids);
    NodeAt(ids, i);
    hide LE, FromLE, FromBE, NodeBytes;
    assert HashBytes(ids)[4 + 32 * i..36 + 32 * i] == NodeBytes(ids)[32 * i..32 * i + 32];
  }

  lemma {:induction false} NodeAt(ids: seq<Digest>, i: nat)
    requires i < |ids|
    ensures |NodeBytes(ids)| == 32 * |ids| && FromBE(NodeBytes(ids)[32 * i..32 * i + 32]) == ids[i]
  {
    NodeBytesLength(ids);
    if i == 0 {
      BERead(ids[0], 32);
      assert NodeBytes(ids)[0..32] == BE(ids[0], 32);
    } else {
      NodeAt(ids[1..], i - 1);
      assert NodeBytes(ids)[32 * i..32 * i + 32] == NodeBytes(ids[1..])[32 * (i - 1)..32 * (i - 1) + 32];
    }
  }

  /** The kind byte names the message, and any other kind is a bad frame. */
  lemma KindsExact(f: Frame, prims: Primitives)
    requires DecodeWire(f, prims).Got?
    ensures var p := DecodeWire(f, prims).value;
      && (p.PingPacket? <==> f.kind == 2) && (p.PongPacket? <==> f.kind == 3) && (p.InventoryPacket? <==> f.kind == 10)
      && (p.HavePacket? <==> f.kind == 11) && (p.NeedPacket? <==> f.kind == 12)
      && (p.BodyPacket? <==> f.kind == 13) && (p.DonePacket? <==> f.kind == 14)
    ensures var p := DecodeWire(f, prims).value; EncodeWire(p).kind == f.kind
  {
    hide DecodeHashes, FromCanonical, TakeNodes, TakeLE, TakeHash, HashBytes, InventoryBytes, CanonicalBytes;
  }
}
