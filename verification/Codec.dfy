/** `canonical_bytes` and `from_canonical` (src/dag/tx.rs), with the blobs of
    src/crypto/lattice.rs.  Hashing and key validity are parameters. */
module Codec {
  import opened Basics
  import opened Bytes

  const PK_LEN: nat := 1_312
  const SIG_LEN: nat := 2_420
  const SCHEME_TOY_LWE: byte := 1
  const SCHEME_MLDSA44: byte := 2

  type Digest = n: nat | n < Pow256(32) witness 0

  /** SHA-256 and the ML-DSA public-key check. */
  datatype Primitives = Primitives(sha: seq<byte> -> Digest, validKey: seq<byte> -> bool)

  datatype CarrierProof = CarrierProof(node: Digest, publicKey: seq<byte>, signature: seq<byte>)

  /** The fields of a vertex that are stored, and the id they hash to. */
  datatype SignedTx = SignedTx(
    id: Digest, parent1: Digest, parent2: Digest, sender: Digest, recipient: Digest,
    amount: u64, fee: u64, nonce: u64,
    publicKey: seq<byte>, signature: seq<byte>,
    relayNodes: seq<Digest>, relayProofs: seq<CarrierProof>)

  // ---------------------------------------------------------------- writing

  function Blob(raw: seq<byte>): seq<byte> {
    [SCHEME_MLDSA44] + LE(|raw|, 4) + raw
  }

  function HeadBytes(tx: SignedTx): seq<byte> {
    BE(tx.parent1, 32) + BE(tx.parent2, 32) + BE(tx.sender, 32) + BE(tx.recipient, 32)
    + LE(tx.amount, 8) + LE(tx.fee, 8) + LE(tx.nonce, 8)
  }

  function UnsignedBytes(tx: SignedTx): seq<byte> {
    HeadBytes(tx) + Blob(tx.publicKey)
  }

  /** A length field and the blob it measures. */
  function Sized(blob: seq<byte>): seq<byte> {
    LE(|blob|, 4) + blob
  }

  function NodeBytes(nodes: seq<Digest>): seq<byte> {
    if nodes == [] then [] else BE(nodes[0], 32) + NodeBytes(nodes[1..])
  }

  function ProofBytes(proofs: seq<CarrierProof>): seq<byte> {
    if proofs == [] then []
    else
      var p := proofs[0];
      BE(p.node, 32) + Sized(Blob(p.publicKey)) + Sized(Blob(p.signature)) + ProofBytes(proofs[1..])
  }

  function CanonicalBytes(tx: SignedTx): seq<byte> {
    UnsignedBytes(tx) + Sized(Blob(tx.signature))
    + LE(|tx.relayNodes|, 4) + NodeBytes(tx.relayNodes)
    + LE(|tx.relayProofs|, 4) + ProofBytes(tx.relayProofs)
  }

  // ---------------------------------------------------------------- reading

  function TakeU64(b: seq<byte>, e: ParseError): Parsed<u64> {
    if |b| < 8 then Refused(e)
    else
      FromLEBelow(b[..8]);
      Widths();
      Got(FromLE(b[..8]), b[8..])
  }

  function TakeHash(b: seq<byte>, e: ParseError): Parsed<Digest> {
    if |b| < 32 then Refused(e)
    else
      FromBEBelow(b[..32]);
      Got(FromBE(b[..32]), b[32..])
  }

  /** Length of the blob at the front of `b`, header included. */
  function BlobLen(b: seq<byte>, expected: nat): Parsed<nat> {
    if |b| < 5 then Refused(InvalidEncoding)
    else if b[0] == SCHEME_TOY_LWE then Refused(ObsoleteScheme)
    else if b[0] != SCHEME_MLDSA44 then Refused(InvalidEncoding)
    else if FromLE(b[1..5]) != expected then Refused(InvalidEncoding)
    else if |b| < 5 + expected then Refused(InvalidEncoding)
    else Got(5 + expected, b)
  }

  function DecodeBlob(b: seq<byte>, expected: nat): Parsed<seq<byte>> {
    var (n, _) :- BlobLen(b, expected);
    Got(b[5..n], b[n..])
  }

  /** A public key, with room for the length field that must follow it. */
  function TakeKey(b: seq<byte>, prims: Primitives): Parsed<seq<byte>> {
    var (n, _) :- BlobLen(b, PK_LEN);
    if |b| < n + 4 then Refused(InvalidEncoding)
    else
      var (raw, _) :- DecodeBlob(b[..n], PK_LEN);
      if prims.validKey(raw) then Got(raw, b[n..]) else Refused(InvalidEncoding)
  }

  function TakeSignature(b: seq<byte>): Parsed<seq<byte>> {
    var (n, b1) :- TakeLE(b, 4, InvalidEncoding);
    if |b1| < n then Refused(InvalidEncoding)
    else
      var (raw, _) :- DecodeBlob(b1[..n], SIG_LEN);
      Got(raw, b1[n..])
  }

  function TakeNodes(b: seq<byte>, n: nat, e: ParseError): Parsed<seq<Digest>> {
    if n == 0 then Got([], b)
    else
      var (nodes, b1) :- TakeNodes(b, n - 1, e);
      var (node, b2) :- TakeHash(b1, e);
      Got(nodes + [node], b2)
  }

  function TakeProof(b: seq<byte>, prims: Primitives): Parsed<CarrierProof> {
    if |b| < 32 + 4 then Refused(InvalidEncoding)
    else
      var (node, b1) :- TakeHash(b, InvalidEncoding);
      var (key, b2) :- TakeKey(b1, prims);
      var (signature, b3) :- TakeSignature(b2);
      Got(CarrierProof(node, key, signature), b3)
  }

  function TakeProofs(b: seq<byte>, n: nat, prims: Primitives): Parsed<seq<CarrierProof>> {
    if n == 0 then Got([], b)
    else
      var (proofs, b1) :- TakeProofs(b, n - 1, prims);
      var (proof, b2) :- TakeProof(b1, prims);
      Got(proofs + [proof], b2)
  }

  /** The seven fixed-width fields: a vertex without key, signature and relays. */
  function TakeHead(b: seq<byte>): Parsed<SignedTx> {
    if |b| < 152 then Refused(InvalidEncoding)
    else
      var (p1, b1) :- TakeHash(b, InvalidEncoding);
      var (p2, b2) :- TakeHash(b1, InvalidEncoding);
      var (sender, b3) :- TakeHash(b2, InvalidEncoding);
      var (recipient, b4) :- TakeHash(b3, InvalidEncoding);
      var (amount, b5) :- TakeU64(b4, InvalidEncoding);
      var (fee, b6) :- TakeU64(b5, InvalidEncoding);
      var (nonce, b7) :- TakeU64(b6, InvalidEncoding);
      Got(SignedTx(0, p1, p2, sender, recipient, amount, fee, nonce, [], [], [], []), b7)
  }

  /** Key, signature, relays and proofs, and the id recomputed from what was read; bytes
      after them are not looked at. */
  function FromCanonical(b: seq<byte>, prims: Primitives): Parsed<SignedTx> {
    var (head, b1) :- TakeHead(b);
    var (key, b2) :- TakeKey(b1, prims);
    var (signature, b3) :- TakeSignature(b2);
    var (n, b4) :- TakeLE(b3, 4, InvalidEncoding);
    var (nodes, b5) :- TakeNodes(b4, n, InvalidEncoding);
    var (k, b6) :- TakeLE(b5, 4, InvalidEncoding);
    var (proofs, b7) :- TakeProofs(b6, k, prims);
    var tx := head.(publicKey := key, signature := signature, relayNodes := nodes, relayProofs := proofs);
    Got(tx.(id := prims.sha(UnsignedBytes(tx))), b7)
  }

  // ------------------------------------------------------------- round trip

  /** What a constructed vertex satisfies: keys and signatures of their fixed sizes, lists
      whose lengths fit their 32-bit fields, an id that is the digest of the payload. */
  predicate Encodable(tx: SignedTx, prims: Primitives) {
    && |tx.publicKey| == PK_LEN && prims.validKey(tx.publicKey) && |tx.signature| == SIG_LEN
    && |tx.relayNodes| < Pow256(4) && |tx.relayProofs| < Pow256(4)
    && (forall i :: 0 <= i < |tx.relayProofs| ==> |tx.relayProofs[i].publicKey| == PK_LEN)
    && tx.id == prims.sha(UnsignedBytes(tx))
  }

  lemma TakesU64(n: u64, rest: seq<byte>, e: ParseError)
    ensures TakeU64(LE(n, 8) + rest, e) == Got(n, rest)
  {
    Widths();
    TakesLE(n, 8, rest, e);
  }

  lemma TakesHash(n: Digest, rest: seq<byte>, e: ParseError)
    ensures TakeHash(BE(n, 32) + rest, e) == Got(n, rest)
  {
    TakesBE(n, 32, rest, e);
  }

  lemma TakesBlob(raw: seq<byte>, rest: seq<byte>)
    requires |raw| < Pow256(4)
    ensures BlobLen(Blob(raw) + rest, |raw|) == Got(5 + |raw|, Blob(raw) + rest)
    ensures DecodeBlob(Blob(raw) + rest, |raw|) == Got(raw, rest)
  {
    var b := Blob(raw) + rest;
    LERead(|raw|, 4);
    assert b[1..5] == LE(|raw|, 4);
    assert b[5..5 + |raw|] == raw && b[5 + |raw|..] == rest;
  }

  lemma TakesKey(raw: seq<byte>, rest: seq<byte>, prims: Primitives)
    requires |raw| == PK_LEN && prims.validKey(raw) && |rest| >= 4
    ensures TakeKey(Blob(raw) + rest, prims) == Got(raw, rest)
  {
    Widths();
    TakesBlob(raw, rest);
    TakesBlob(raw, []);
    var b, n := Blob(raw) + rest, 5 + PK_LEN;
    assert b[..n] == Blob(raw) + [] && b[n..] == rest;
  }

  lemma TakesSignature(raw: seq<byte>, rest: seq<byte>)
    requires |raw| == SIG_LEN
    ensures TakeSignature(Sized(Blob(raw)) + rest) == Got(raw, rest)
  {
    Widths();
    var blob := Blob(raw);
    assert Sized(blob) + rest == LE(|blob|, 4) + (blob + rest);
    TakesLE(|blob|, 4, blob + rest, InvalidEncoding);
    TakesBlob(raw, []);
    assert (blob + rest)[..|blob|] == blob + [] && (blob + rest)[|blob|..] == rest;
  }

  lemma {:induction false} NodeBytesMore(nodes: seq<Digest>, node: Digest)
    ensures NodeBytes(nodes + [node]) == NodeBytes(nodes) + BE(node, 32)
  {
    if nodes == [] {
      assert NodeBytes([node]) == BE(node, 32) + NodeBytes([]);
    } else {
      NodeBytesMore(nodes[1..], node);
      assert (nodes + [node])[1..] == nodes[1..] + [node];
    }
  }

  lemma {:induction false} TakesNodes(nodes: seq<Digest>, rest: seq<byte>, e: ParseError)
    ensures TakeNodes(NodeBytes(nodes) + rest, |nodes|, e) == Got(nodes, rest)
  {
    if nodes != [] {
      var n := |nodes| - 1;
      var p, last := nodes[..n], nodes[n];
      assert nodes == p + [last];
      NodeBytesMore(p, last);
      assert NodeBytes(nodes) + rest == NodeBytes(p) + (BE(last, 32) + rest);
      TakesNodes(p, BE(last, 32) + rest, e);
      TakesHash(last, rest, e);
    } else {
      assert NodeBytes(nodes) + rest == rest;
    }
  }

  lemma TakesHead(tx: SignedTx, rest: seq<byte>)
    ensures TakeHead(HeadBytes(tx) + rest)
         == Got(tx.(id := 0, publicKey := [], signature := [], relayNodes := [], relayProofs := []), rest)
  {
    hide TakeU64, TakeHash;
    var e := InvalidEncoding;
    var r7 := LE(tx.nonce, 8) + rest;
    var r6 := LE(tx.fee, 8) + r7;
    var r5 := LE(tx.amount, 8) + r6;
    var r4 := BE(tx.recipient, 32) + r5;
    var r3 := BE(tx.sender, 32) + r4;
    var r2 := BE(tx.parent2, 32) + r3;
    assert HeadBytes(tx) + rest == BE(tx.parent1, 32) + r2;
    TakesHash(tx.parent1, r2, e);
    TakesHash(tx.parent2, r3, e);
    TakesHash(tx.sender, r4, e);
    TakesHash(tx.recipient, r5, e);
    TakesU64(tx.amount, r6, e);
    TakesU64(tx.fee, r7, e);
    TakesU64(tx.nonce, rest, e);
  }

  /** What follows the signature. */
  function TailBytes(tx: SignedTx): seq<byte> {
    LE(|tx.relayProofs|, 4) + ProofBytes(tx.relayProofs)
  }

  lemma Regrouped(tx: SignedTx, rest: seq<byte>)
    ensures CanonicalBytes(tx) + rest
         == HeadBytes(tx) + (Blob(tx.publicKey) + (Sized(Blob(tx.signature))
            + (LE(|tx.relayNodes|, 4) + (NodeBytes(tx.relayNodes) + (TailBytes(tx) + rest)))))
  {
    hide HeadBytes, Blob, Sized, NodeBytes, ProofBytes;
  }

  /** Everything before the proofs reads back, whatever they are. */
  lemma ReadsToProofs(tx: SignedTx, rest: seq<byte>, prims: Primitives)
    requires Encodable(tx, prims)
    ensures FromCanonical(CanonicalBytes(tx) + rest, prims) ==
      var r := TakeProofs(ProofBytes(tx.relayProofs) + rest, |tx.relayProofs|, prims);
      if r.Got? then Got(tx.(relayProofs := r.value), r.rest) else Refused(r.error)
  {
    hide TakeHead, TakeKey, TakeSignature, TakeNodes, TakeLE, TakeProofs, CanonicalBytes, HeadBytes;
    hide Blob, Sized, NodeBytes, ProofBytes;
    var r6 := ProofBytes(tx.relayProofs) + rest;
    var r5 := LE(|tx.relayProofs|, 4) + r6;
    var r4 := NodeBytes(tx.relayNodes) + r5;
    var r3 := LE(|tx.relayNodes|, 4) + r4;
    var r2 := Sized(Blob(tx.signature)) + r3;
    var r1 := Blob(tx.publicKey) + r2;
    Regrouped(tx, rest);
    assert TailBytes(tx) + rest == r5;
    TakesHead(tx, r1);
    TakesKey(tx.publicKey, r2, prims);
    TakesSignature(tx.signature, r3);
    TakesLE(|tx.relayNodes|, 4, r4, InvalidEncoding);
    TakesNodes(tx.relayNodes, r5, InvalidEncoding);
    TakesLE(|tx.relayProofs|, 4, r6, InvalidEncoding);
    SamePayload(tx, prims);
  }

  /** The id does not depend on signature, relays or proofs. */
  lemma SamePayload(tx: SignedTx, prims: Primitives)
    ensures forall id, proofs :: UnsignedBytes(tx.(id := id, relayProofs := proofs)) == UnsignedBytes(tx)
  {}

  /** The first proof of a list never parses: the 4-byte key length that is written in front
      of the key is read as the key's own header, and its low byte 0x25 is no scheme. */
  lemma FirstProofGarbled(p: CarrierProof, rest: seq<byte>, prims: Primitives)
    requires |p.publicKey| == PK_LEN
    ensures TakeProof(BE(p.node, 32) + (Sized(Blob(p.publicKey)) + rest), prims) == Refused(InvalidEncoding)
  {
    var blob := Blob(p.publicKey);
    var b := Sized(blob) + rest;
    TakesHash(p.node, b, InvalidEncoding);
    assert |blob| == 1_317 && b[0] == LE(1_317, 4)[0] == 0x25;
    assert BlobLen(b, PK_LEN) == Refused(InvalidEncoding);
  }

  lemma {:induction false} ProofsStop(b: seq<byte>, n: nat, prims: Primitives, e: ParseError)
    requires n > 0 && TakeProof(b, prims) == Refused(e)
    ensures TakeProofs(b, n, prims) == Refused(e)
  {
    hide TakeProof;
    if n > 1 { ProofsStop(b, n - 1, prims, e); }
  }

  /** A vertex decodes to itself if and only if it carries no relay proofs; with proofs the
      decoder refuses the bytes the encoder wrote. */
  lemma DecodeInverts(tx: SignedTx, rest: seq<byte>, prims: Primitives)
    requires Encodable(tx, prims)
    ensures FromCanonical(CanonicalBytes(tx) + rest, prims)
         == if tx.relayProofs == [] then Got(tx, rest) else Refused(InvalidEncoding)
  {
    hide FromCanonical, CanonicalBytes, TakeProof;
    ReadsToProofs(tx, rest, prims);
    if tx.relayProofs == [] {
      assert ProofBytes(tx.relayProofs) + rest == rest;
    } else {
      var p := tx.relayProofs[0];
      var more := Sized(Blob(p.signature)) + ProofBytes(tx.relayProofs[1..]) + rest;
      FirstProofBytes(tx.relayProofs, rest);
      FirstProofGarbled(p, more, prims);
      ProofsStop(ProofBytes(tx.relayProofs) + rest, |tx.relayProofs|, prims, InvalidEncoding);
    }
  }

  lemma FirstProofBytes(proofs: seq<CarrierProof>, rest: seq<byte>)
    requires proofs != []
    ensures var p := proofs[0];
      ProofBytes(proofs) + rest
      == BE(p.node, 32) + (Sized(Blob(p.publicKey)) + (Sized(Blob(p.signature)) + ProofBytes(proofs[1..]) + rest))
  {
    hide Sized, Blob;
  }

  // ------------------------------------------------------ the source's loops

  method WriteNodes(out0: seq<byte>, nodes: seq<Digest>) returns (out: seq<byte>)
    ensures out == out0 + NodeBytes(nodes)
  {
    hide NodeBytes;
    NoBytes();
    out := out0;
    for i := 0 to |nodes|
      invariant out == out0 + NodeBytes(nodes[..i])
    {
      assert nodes[..i + 1] == nodes[..i] + [nodes[i]];
      NodeBytesMore(nodes[..i], nodes[i]);
      out := out + BE(nodes[i], 32);
    }
    assert nodes[..|nodes|] == nodes;
  }

  lemma NoBytes()
    ensures NodeBytes([]) == [] && ProofBytes([]) == []
  {}

  method WriteProofs(out0: seq<byte>, proofs: seq<CarrierProof>) returns (out: seq<byte>)
    ensures out == out0 + ProofBytes(proofs)
  {
    hide ProofBytes, Blob;
    NoBytes();
    out := out0;
    for i := 0 to |proofs|
      invariant out == out0 + ProofBytes(proofs[..i])
    {
      var proof := proofs[i];
      assert proofs[..i + 1] == proofs[..i] + [proof];
      ProofBytesMore(proofs[..i], proof);
      var pk, sb := Blob(proof.publicKey), Blob(proof.signature);
      ghost var before := out;
      out := out + BE(proof.node, 32);
      out := out + LE(|pk|, 4) + pk;
      out := out + LE(|sb|, 4) + sb;
      assert out == before + (BE(proof.node, 32) + Sized(pk) + Sized(sb));
    }
    assert proofs[..|proofs|] == proofs;
  }

  method WriteCanonical(tx: SignedTx) returns (out: seq<byte>)
    ensures out == CanonicalBytes(tx)
  {
    hide UnsignedBytes, Blob, NodeBytes, ProofBytes;
    out := UnsignedBytes(tx);
    var sig := Blob(tx.signature);
    out := out + LE(|sig|, 4);
    out := out + sig;
    assert out == UnsignedBytes(tx) + Sized(sig);
    out := out + LE(|tx.relayNodes|, 4);
    out := WriteNodes(out, tx.relayNodes);
    out := out + LE(|tx.relayProofs|, 4);
    out := WriteProofs(out, tx.relayProofs);
  }

  lemma {:induction false} ProofBytesMore(proofs: seq<CarrierProof>, p: CarrierProof)
    ensures ProofBytes(proofs + [p])
          == ProofBytes(proofs) + (BE(p.node, 32) + Sized(Blob(p.publicKey)) + Sized(Blob(p.signature)))
  {
    hide Sized, Blob;
    if proofs == [] {
      assert ProofBytes([p]) == BE(p.node, 32) + Sized(Blob(p.publicKey)) + Sized(Blob(p.signature)) + ProofBytes([]);
    } else {
      ProofBytesMore(proofs[1..], p);
      assert (proofs + [p])[1..] == proofs[1..] + [p];
    }
  }

  /** The fixed-width fields by their offsets. */
  lemma HeadAt(b: seq<byte>)
    requires |b| >= 152
    ensures TakeHead(b).Got? && TakeHead(b).rest == b[152..]
    ensures var tx := TakeHead(b).value;
      && tx.id == 0 && tx.parent1 == FromBE(b[0..32]) && tx.parent2 == FromBE(b[32..64])
      && tx.sender == FromBE(b[64..96]) && tx.recipient == FromBE(b[96..128])
      && tx.amount == FromLE(b[128..136]) && tx.fee == FromLE(b[136..144]) && tx.nonce == FromLE(b[144..152])
      && tx.publicKey == [] && tx.signature == [] && tx.relayNodes == [] && tx.relayProofs == []
  {
    hide FromBE, FromLE;
    assert b[32..][..32] == b[32..64] && b[32..][32..] == b[64..];
    assert b[64..][..32] == b[64..96] && b[64..][32..] == b[96..];
    assert b[96..][..32] == b[96..128] && b[96..][32..] == b[128..];
    assert b[128..][..8] == b[128..136] && b[128..][8..] == b[136..];
    assert b[136..][..8] == b[136..144] && b[136..][8..] == b[144..];
    assert b[144..][..8] == b[144..152] && b[144..][8..] == b[152..];
  }

  method ReadHead(bytes: seq<byte>) returns (tx: SignedTx, off: nat)
    requires |bytes| >= 152
    ensures off == 152 && TakeHead(bytes) == Got(tx, bytes[off..])
  {
    HeadAt(bytes);
    off := 0;
    var parent1 := FromBE(bytes[off..off + 32]);
    off := off + 32;
    var parent2 := FromBE(bytes[off..off + 32]);
    off := off + 32;
    var sender := FromBE(bytes[off..off + 32]);
    off := off + 32;
    var recipient := FromBE(bytes[off..off + 32]);
    off := off + 32;
    var amount := FromLE(bytes[off..off + 8]);
    off := off + 8;
    var fee := FromLE(bytes[off..off + 8]);
    off := off + 8;
    var nonce := FromLE(bytes[off..off + 8]);
    off := off + 8;
    tx := SignedTx(0, parent1, parent2, sender, recipient, amount, fee, nonce, [], [], [], []);
  }

  /** Key, then length-prefixed signature, from `off`. */
  method ReadSigner(bytes: seq<byte>, off0: nat, prims: Primitives)
      returns (r: Parsed<(seq<byte>, seq<byte>)>, off: nat)
    requires off0 <= |bytes|
    ensures off <= |bytes|
    ensures r == match TakeKey(bytes[off0..], prims)
      case Refused(e) => Refused(e)
      case Got(key, b) =>
        match TakeSignature(b)
        case Refused(e) => Refused(e)
        case Got(signature, b1) => Got((key, signature), b1)
    ensures r.Got? ==> r.rest == bytes[off..]
  {
    hide FromLE;
    off := off0;
    var len := BlobLen(bytes[off..], PK_LEN);
    if len.Refused? {
      return Refused(len.error), off;
    }
    var pkLen := len.value;
    if |bytes| < off + pkLen + 4 {
      return Refused(InvalidEncoding), off;
    }
    assert bytes[off..][..pkLen] == bytes[off..off + pkLen] && bytes[off..][pkLen..] == bytes[off + pkLen..];
    var key := DecodeBlob(bytes[off..off + pkLen], PK_LEN);
    if key.Refused? {
      return Refused(key.error), off;
    }
    if !prims.validKey(key.value) {
      return Refused(InvalidEncoding), off;
    }
    off := off + pkLen;
    var slen := FromLE(bytes[off..off + 4]);
    assert bytes[off..][..4] == bytes[off..off + 4] && bytes[off..][4..] == bytes[off + 4..];
    off := off + 4;
    if |bytes| < off + slen {
      return Refused(InvalidEncoding), off;
    }
    assert bytes[off..][..slen] == bytes[off..off + slen] && bytes[off..][slen..] == bytes[off + slen..];
    var signature := DecodeBlob(bytes[off..off + slen], SIG_LEN);
    if signature.Refused? {
      return Refused(signature.error), off;
    }
    off := off + slen;
    r := Got((key.value, signature.value), bytes[off..]);
  }

  lemma {:induction false} NodesStop(b: seq<byte>, i: nat, n: nat, e: ParseError)
    requires i <= n && TakeNodes(b, i, e).Refused?
    ensures TakeNodes(b, n, e) == Refused(TakeNodes(b, i, e).error)
    decreases n
  {
    if i < n { NodesStop(b, i, n - 1, e); }
  }

  lemma {:induction false} ProofsStopAt(b: seq<byte>, i: nat, n: nat, prims: Primitives)
    requires i <= n && TakeProofs(b, i, prims).Refused?
    ensures TakeProofs(b, n, prims) == Refused(TakeProofs(b, i, prims).error)
    decreases n
  {
    hide TakeProof;
    if i < n { ProofsStopAt(b, i, n - 1, prims); }
  }

  lemma NodesStep(b: seq<byte>, i: nat, nodes: seq<Digest>, rest: seq<byte>, e: ParseError)
    requires TakeNodes(b, i, e) == Got(nodes, rest)
    ensures |rest| < 32 ==> TakeNodes(b, i + 1, e) == Refused(e)
    ensures |rest| >= 32 ==>
      FromBE(rest[..32]) < Pow256(32) && TakeNodes(b, i + 1, e) == Got(nodes + [FromBE(rest[..32])], rest[32..])
  {
    if |rest| >= 32 { FromBEBelow(rest[..32]); }
  }

  lemma ProofsStep(b: seq<byte>, i: nat, proofs: seq<CarrierProof>, rest: seq<byte>, prims: Primitives)
    requires TakeProofs(b, i, prims) == Got(proofs, rest)
    ensures TakeProofs(b, i + 1, prims) == match TakeProof(rest, prims)
      case Refused(e) => Refused(e)
      case Got(proof, more) => Got(proofs + [proof], more)
  {
    hide TakeProof;
  }

  method ReadNodes(bytes: seq<byte>, off0: nat, n: nat, e: ParseError) returns (r: Parsed<seq<Digest>>, off: nat)
    requires off0 <= |bytes|
    ensures off <= |bytes| && r == TakeNodes(bytes[off0..], n, e) && (r.Got? ==> r.rest == bytes[off..])
  {
    hide FromBE;
    off := off0;
    var nodes: seq<Digest> := [];
    NoNodes(bytes[off0..], e);
    hide TakeNodes, Pow256;
    for i := 0 to n
      invariant off <= |bytes| && TakeNodes(bytes[off0..], i, e) == Got(nodes, bytes[off..])
    {
      NodesStep(bytes[off0..], i, nodes, bytes[off..], e);
      if |bytes| < off + 32 {
        NodesStop(bytes[off0..], i + 1, n, e);
        return Refused(e), off;
      }
      assert bytes[off..][..32] == bytes[off..off + 32] && bytes[off..][32..] == bytes[off + 32..];
      nodes := nodes + [FromBE(bytes[off..off + 32])];
      off := off + 32;
    }
    r := Got(nodes, bytes[off..]);
  }

  lemma NoNodes(b: seq<byte>, e: ParseError)
    ensures TakeNodes(b, 0, e) == Got([], b)
  {}

  lemma NoProofs(b: seq<byte>, prims: Primitives)
    ensures TakeProofs(b, 0, prims) == Got([], b)
  {}

  method ReadProofs(bytes: seq<byte>, off0: nat, n: nat, prims: Primitives)
      returns (r: Parsed<seq<CarrierProof>>, off: nat)
    requires off0 <= |bytes|
    ensures off <= |bytes| && r == TakeProofs(bytes[off0..], n, prims) && (r.Got? ==> r.rest == bytes[off..])
  {
    hide TakeProof;
    off := off0;
    var proofs: seq<CarrierProof> := [];
    NoProofs(bytes[off0..], prims);
    hide TakeProofs;
    for i := 0 to n
      invariant off <= |bytes| && TakeProofs(bytes[off0..], i, prims) == Got(proofs, bytes[off..])
    {
      ProofsStep(bytes[off0..], i, proofs, bytes[off..], prims);
      var proof;
      proof, off := ReadProof(bytes, off, prims);
      if proof.Refused? {
        ProofsStopAt(bytes[off0..], i + 1, n, prims);
        return Refused(proof.error), off;
      }
      proofs := proofs + [proof.value];
    }
    r := Got(proofs, bytes[off..]);
  }

  method ReadProof(bytes: seq<byte>, off0: nat, prims: Primitives) returns (r: Parsed<CarrierProof>, off: nat)
    requires off0 <= |bytes|
    ensures off <= |bytes| && r == TakeProof(bytes[off0..], prims) && (r.Got? ==> r.rest == bytes[off..])
  {
    hide FromBE, TakeKey, TakeSignature;
    off := off0;
    if |bytes| < off + 32 + 4 {
      return Refused(InvalidEncoding), off;
    }
    assert bytes[off..][..32] == bytes[off..off + 32] && bytes[off..][32..] == bytes[off + 32..];
    FromBEBelow(bytes[off..off + 32]);
    var node := FromBE(bytes[off..off + 32]);
    off := off + 32;
    var signer;
    signer, off := ReadSigner(bytes, off, prims);
    if signer.Refused? {
      return Refused(signer.error), off;
    }
    r := Got(CarrierProof(node, signer.value.0, signer.value.1), bytes[off..]);
  }

  method ReadCount(bytes: seq<byte>, off0: nat) returns (r: Parsed<nat>, off: nat)
    requires off0 <= |bytes|
    ensures off <= |bytes| && r == TakeLE(bytes[off0..], 4, InvalidEncoding) && (r.Got? ==> r.rest == bytes[off..])
  {
    hide FromLE;
    off := off0;
    if |bytes| < off + 4 {
      return Refused(InvalidEncoding), off;
    }
    assert bytes[off..][..4] == bytes[off..off + 4] && bytes[off..][4..] == bytes[off + 4..];
    var n := FromLE(bytes[off..off + 4]);
    off := off + 4;
    r := Got(n, bytes[off..]);
  }

  method ReadCanonical(bytes: seq<byte>, prims: Primitives) returns (r: Parsed<SignedTx>)
    ensures r == FromCanonical(bytes, prims)
  {
    hide TakeHead, TakeKey, TakeSignature, TakeNodes, TakeProofs, TakeLE, UnsignedBytes;
    if |bytes| < 152 {
      ShortHead(bytes);
      return Refused(InvalidEncoding);
    }
    var tx, off := ReadHead(bytes);
    var signer;
    signer, off := ReadSigner(bytes, off, prims);
    if signer.Refused? {
      return Refused(signer.error);
    }
    var n;
    n, off := ReadCount(bytes, off);
    if n.Refused? {
      return Refused(n.error);
    }
    var nodes;
    nodes, off := ReadNodes(bytes, off, n.value, InvalidEncoding);
    if nodes.Refused? {
      return Refused(nodes.error);
    }
    var k;
    k, off := ReadCount(bytes, off);
    if k.Refused? {
      return Refused(k.error);
    }
    var proofs;
    proofs, off := ReadProofs(bytes, off, k.value, prims);
    if proofs.Refused? {
      return Refused(proofs.error);
    }
    tx := tx.(publicKey := signer.value.0, signature := signer.value.1, relayNodes := nodes.value,
              relayProofs := proofs.value);
    tx := tx.(id := prims.sha(UnsignedBytes(tx)));
    r := Got(tx, bytes[off..]);
  }

  lemma ShortHead(b: seq<byte>)
    requires |b| < 152
    ensures TakeHead(b) == Refused(InvalidEncoding)
  {}
}
