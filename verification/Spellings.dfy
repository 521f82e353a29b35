/** Every byte string that `from_canonical` (src/dag/tx.rs) reads, and as what: the decoder
    looks at no byte behind the signature inside its length-prefixed field, and reads a
    carrier's key without the length that the encoder writes in front of it. */
module Spellings {
  import opened Basics
  import opened Bytes
  import opened Codec

  /** A signature in its field, with unread bytes behind it. */
  function Field(raw: seq<byte>, slack: seq<byte>): seq<byte> {
    LE(5 + |raw| + |slack|, 4) + (Blob(raw) + slack)
  }

  function ProofSpelling(p: CarrierProof, slack: seq<byte>): seq<byte> {
    BE(p.node, 32) + (Blob(p.publicKey) + Field(p.signature, slack))
  }

  function ProofsSpelling(proofs: seq<CarrierProof>, slacks: seq<seq<byte>>): seq<byte>
    requires |proofs| == |slacks|
  {
    if proofs == [] then []
    else
      var n := |proofs| - 1;
      ProofsSpelling(proofs[..n], slacks[..n]) + ProofSpelling(proofs[n], slacks[n])
  }

  function Spelling(tx: SignedTx, slack: seq<byte>, slacks: seq<seq<byte>>): seq<byte>
    requires |tx.relayProofs| == |slacks|
  {
    HeadBytes(tx) + (Blob(tx.publicKey) + (Field(tx.signature, slack)
    + (LE(|tx.relayNodes|, 4) + (NodeBytes(tx.relayNodes)
    + (LE(|tx.relayProofs|, 4) + ProofsSpelling(tx.relayProofs, slacks))))))
  }

  /** A valid key of its size, and a signature of its size whose field can be measured. */
  predicate Signed(key: seq<byte>, signature: seq<byte>, slack: seq<byte>, prims: Primitives) {
    && |key| == PK_LEN && prims.validKey(key)
    && |signature| == SIG_LEN && 5 + SIG_LEN + |slack| < Pow256(4)
  }

  predicate ProofsSigned(proofs: seq<CarrierProof>, slacks: seq<seq<byte>>, prims: Primitives): (r: bool)
    ensures r ==> |slacks| == |proofs|
  {
    && |proofs| == |slacks|
    && forall i :: 0 <= i < |proofs| ==> Signed(proofs[i].publicKey, proofs[i].signature, slacks[i], prims)
  }

  /** `tx` with its proofs, sealed under its own digest. */
  predicate Spelled(tx: SignedTx, slack: seq<byte>, slacks: seq<seq<byte>>, prims: Primitives): (r: bool)
    ensures r ==> |slacks| == |tx.relayProofs|
  {
    && Signed(tx.publicKey, tx.signature, slack, prims) && ProofsSigned(tx.relayProofs, slacks, prims)
    && |tx.relayNodes| < Pow256(4) && |tx.relayProofs| < Pow256(4)
    && tx.id == prims.sha(UnsignedBytes(tx))
  }

  // ------------------------------------------------------- what was read

  lemma TakenBlob(b: seq<byte>, n: nat)
    requires n < Pow256(4) && DecodeBlob(b, n).Got?
    ensures var r := DecodeBlob(b, n); |r.value| == n && b == Blob(r.value) + r.rest
  {
    LEWrites(b[1..5]);
    assert b == [b[0]] + b[1..5] + b[5..5 + n] + b[5 + n..];
  }

  lemma TakenKey(b: seq<byte>, prims: Primitives)
    requires TakeKey(b, prims).Got?
    ensures var r := TakeKey(b, prims);
      |r.value| == PK_LEN && prims.validKey(r.value) && |r.rest| >= 4 && b == Blob(r.value) + r.rest
  {
    Widths();
    var n := 5 + PK_LEN;
    TakenBlob(b[..n], PK_LEN);
    hide Blob;
    assert DecodeBlob(b[..n], PK_LEN).rest == [];
    assert b == b[..n] + b[n..];
  }

  lemma TakenSignature(b: seq<byte>) returns (slack: seq<byte>)
    requires TakeSignature(b).Got?
    ensures var r := TakeSignature(b);
      |r.value| == SIG_LEN && 5 + SIG_LEN + |slack| < Pow256(4) && b == Field(r.value, slack) + r.rest
  {
    Widths();
    TakenLE(b, 4, InvalidEncoding);
    var t := TakeLE(b, 4, InvalidEncoding);
    TakenBlob(t.rest[..t.value], SIG_LEN);
    slack := DecodeBlob(t.rest[..t.value], SIG_LEN).rest;
    hide Blob, LE, TakeLE;
    assert t.rest == t.rest[..t.value] + t.rest[t.value..];
  }

  lemma TakenHash(b: seq<byte>, e: ParseError)
    requires TakeHash(b, e).Got?
    ensures b == BE(TakeHash(b, e).value, 32) + TakeHash(b, e).rest
  {
    BEWrites(b[..32]);
  }

  lemma {:induction false} TakenNodes(b: seq<byte>, n: nat, e: ParseError)
    requires TakeNodes(b, n, e).Got?
    ensures var r := TakeNodes(b, n, e); |r.value| == n && b == NodeBytes(r.value) + r.rest
  {
    hide TakeHash, BE;
    NoBytes();
    hide NodeBytes;
    if n > 0 {
      TakenNodes(b, n - 1, e);
      var p := TakeNodes(b, n - 1, e);
      TakenHash(p.rest, e);
      NodeBytesMore(p.value, TakeHash(p.rest, e).value);
    }
  }

  lemma TakenHead(b: seq<byte>)
    requires TakeHead(b).Got?
    ensures b == HeadBytes(TakeHead(b).value) + TakeHead(b).rest
    ensures var tx := TakeHead(b).value;
      tx == SignedTx(0, tx.parent1, tx.parent2, tx.sender, tx.recipient, tx.amount, tx.fee, tx.nonce, [], [], [], [])
  {
    HeadAt(b);
    BEWrites(b[0..32]);
    BEWrites(b[32..64]);
    BEWrites(b[64..96]);
    BEWrites(b[96..128]);
    LEWrites(b[128..136]);
    LEWrites(b[136..144]);
    LEWrites(b[144..152]);
    HeadSliced(b);
    hide TakeHead, BE, LE, FromBE, FromLE;
  }

  lemma HeadSliced(b: seq<byte>)
    requires |b| >= 152
    ensures b == b[0..32] + b[32..64] + b[64..96] + b[96..128] + b[128..136] + b[136..144] + b[144..152] + b[152..]
  {}

  lemma TakenProof(b: seq<byte>, prims: Primitives) returns (slack: seq<byte>)
    requires TakeProof(b, prims).Got?
    ensures var r := TakeProof(b, prims);
      && Signed(r.value.publicKey, r.value.signature, slack, prims)
      && b == ProofSpelling(r.value, slack) + r.rest
  {
    hide TakeHash, TakeKey, TakeSignature, BE, Blob, Field;
    TakenHash(b, InvalidEncoding);
    var b1 := TakeHash(b, InvalidEncoding).rest;
    TakenKey(b1, prims);
    slack := TakenSignature(TakeKey(b1, prims).rest);
  }

  lemma {:induction false} TakenProofs(b: seq<byte>, n: nat, prims: Primitives) returns (slacks: seq<seq<byte>>)
    requires TakeProofs(b, n, prims).Got?
    ensures var r := TakeProofs(b, n, prims);
      && |r.value| == n && ProofsSigned(r.value, slacks, prims)
      && b == ProofsSpelling(r.value, slacks) + r.rest
  {
    hide TakeProof, ProofSpelling, Signed;
    slacks := [];
    if n > 0 {
      slacks := TakenProofs(b, n - 1, prims);
      var p := TakeProofs(b, n - 1, prims);
      var slack := TakenProof(p.rest, prims);
      var q := TakeProof(p.rest, prims).value;
      assert (p.value + [q])[..n - 1] == p.value && (slacks + [slack])[..n - 1] == slacks;
      slacks := slacks + [slack];
    }
  }

  /** What was read is a spelling of what came out. */
  lemma Decoded(b: seq<byte>, prims: Primitives) returns (slack: seq<byte>, slacks: seq<seq<byte>>)
    requires FromCanonical(b, prims).Got?
    ensures var r := FromCanonical(b, prims);
      Spelled(r.value, slack, slacks, prims) && b == Spelling(r.value, slack, slacks) + r.rest
  {
    hide TakeHead, TakeKey, TakeSignature, TakeLE, TakeNodes, TakeProofs, UnsignedBytes;
    hide ProofsSigned, HeadBytes, Blob, Field, LE, NodeBytes, ProofsSpelling;
    var e := InvalidEncoding;
    TakenHead(b);
    var h := TakeHead(b);
    TakenKey(h.rest, prims);
    var k := TakeKey(h.rest, prims);
    slack := TakenSignature(k.rest);
    var s := TakeSignature(k.rest);
    TakenLE(s.rest, 4, e);
    var n := TakeLE(s.rest, 4, e);
    TakenNodes(n.rest, n.value, e);
    var m := TakeNodes(n.rest, n.value, e);
    TakenLE(m.rest, 4, e);
    var c := TakeLE(m.rest, 4, e);
    slacks := TakenProofs(c.rest, c.value, prims);
    var p := TakeProofs(c.rest, c.value, prims);
    var tx := FromCanonical(b, prims).value;
    SameHead(h.value, tx);
    SealedAs(tx.(id := 0), tx.id, prims);
    Joined(tx, slack, slacks, p.rest);
  }

  lemma SameHead(h: SignedTx, tx: SignedTx)
    requires tx.parent1 == h.parent1 && tx.parent2 == h.parent2 && tx.sender == h.sender
    requires tx.recipient == h.recipient && tx.amount == h.amount && tx.fee == h.fee && tx.nonce == h.nonce
    ensures HeadBytes(tx) == HeadBytes(h)
  {}

  lemma SealedAs(tx: SignedTx, id: Digest, prims: Primitives)
    ensures UnsignedBytes(tx.(id := id)) == UnsignedBytes(tx)
  {}

  lemma Joined(tx: SignedTx, slack: seq<byte>, slacks: seq<seq<byte>>, rest: seq<byte>)
    requires |tx.relayProofs| == |slacks|
    ensures Spelling(tx, slack, slacks) + rest
         == HeadBytes(tx) + (Blob(tx.publicKey) + (Field(tx.signature, slack)
            + (LE(|tx.relayNodes|, 4) + (NodeBytes(tx.relayNodes)
            + (LE(|tx.relayProofs|, 4) + (ProofsSpelling(tx.relayProofs, slacks) + rest))))))
  {
    hide HeadBytes, Blob, Field, NodeBytes, ProofsSpelling, LE;
  }

  // -------------------------------------------------------- what is read

  lemma TakesField(raw: seq<byte>, slack: seq<byte>, rest: seq<byte>)
    requires |raw| == SIG_LEN && 5 + SIG_LEN + |slack| < Pow256(4)
    ensures TakeSignature(Field(raw, slack) + rest) == Got(raw, rest)
  {
    Widths();
    var n := 5 + |raw| + |slack|;
    var tail := Blob(raw) + slack + rest;
    TakesLE(n, 4, tail, InvalidEncoding);
    TakesBlob(raw, slack);
    hide Blob, LE, TakeLE, DecodeBlob;
    assert Field(raw, slack) + rest == LE(n, 4) + tail;
    BlobLength(raw);
    assert tail[..n] == Blob(raw) + slack && tail[n..] == rest;
  }

  lemma BlobLength(raw: seq<byte>)
    ensures |Blob(raw)| == 5 + |raw|
  {}

  lemma FieldLength(raw: seq<byte>, slack: seq<byte>)
    ensures |Field(raw, slack)| == 9 + |raw| + |slack|
  {
    BlobLength(raw);
    hide Blob;
  }

  lemma TakesProof(p: CarrierProof, slack: seq<byte>, rest: seq<byte>, prims: Primitives)
    requires Signed(p.publicKey, p.signature, slack, prims)
    ensures TakeProof(ProofSpelling(p, slack) + rest, prims) == Got(p, rest)
  {
    hide TakeHash, TakeKey, TakeSignature, BE, Blob, Field, Pow256;
    var r2 := Field(p.signature, slack) + rest;
    var r1 := Blob(p.publicKey) + r2;
    assert ProofSpelling(p, slack) + rest == BE(p.node, 32) + r1;
    BlobLength(p.publicKey);
    FieldLength(p.signature, slack);
    TakesHash(p.node, r1, InvalidEncoding);
    TakesKey(p.publicKey, r2, prims);
    TakesField(p.signature, slack, rest);
  }

  lemma {:induction false} TakesProofs(proofs: seq<CarrierProof>, slacks: seq<seq<byte>>, rest: seq<byte>,
                                       prims: Primitives)
    requires ProofsSigned(proofs, slacks, prims)
    ensures TakeProofs(ProofsSpelling(proofs, slacks) + rest, |proofs|, prims) == Got(proofs, rest)
  {
    hide TakeProof, ProofSpelling, Signed;
    if proofs == [] {
      assert ProofsSpelling(proofs, slacks) + rest == rest;
    } else {
      var n := |proofs| - 1;
      var tail := ProofSpelling(proofs[n], slacks[n]) + rest;
      TakesProofs(proofs[..n], slacks[..n], tail, prims);
      TakesProof(proofs[n], slacks[n], rest, prims);
      assert ProofsSpelling(proofs, slacks) + rest == ProofsSpelling(proofs[..n], slacks[..n]) + tail;
      assert proofs == proofs[..n] + [proofs[n]];
    }
  }

  lemma Encoded(tx: SignedTx, slack: seq<byte>, slacks: seq<seq<byte>>, rest: seq<byte>, prims: Primitives)
    requires Spelled(tx, slack, slacks, prims)
    ensures FromCanonical(Spelling(tx, slack, slacks) + rest, prims) == Got(tx, rest)
  {
    hide TakeHead, TakeKey, TakeSignature, TakeLE, TakeNodes, TakeProofs, UnsignedBytes, Pow256, Spelling;
    hide ProofsSigned, HeadBytes, Blob, Field, LE, NodeBytes, ProofsSpelling;
    var e := InvalidEncoding;
    var r6 := ProofsSpelling(tx.relayProofs, slacks) + rest;
    var r5 := LE(|tx.relayProofs|, 4) + r6;
    var r4 := NodeBytes(tx.relayNodes) + r5;
    var r3 := LE(|tx.relayNodes|, 4) + r4;
    var r2 := Field(tx.signature, slack) + r3;
    var r1 := Blob(tx.publicKey) + r2;
    Joined(tx, slack, slacks, rest);
    FieldLength(tx.signature, slack);
    TakesHead(tx, r1);
    TakesKey(tx.publicKey, r2, prims);
    TakesField(tx.signature, slack, r3);
    TakesLE(|tx.relayNodes|, 4, r4, e);
    TakesNodes(tx.relayNodes, r5, e);
    TakesLE(|tx.relayProofs|, 4, r6, e);
    TakesProofs(tx.relayProofs, slacks, rest, prims);
    SealedAs(tx, 0, prims);
  }

  /** Bytes decode to `tx` and a rest if and only if they are a spelling of `tx` and the rest:
      every accepted text is fixed but for the unread bytes inside the signature fields. */
  lemma DecodesExactly(b: seq<byte>, tx: SignedTx, rest: seq<byte>, prims: Primitives)
    ensures FromCanonical(b, prims) == Got(tx, rest) <==>
      exists slack, slacks :: Spelled(tx, slack, slacks, prims) && b == Spelling(tx, slack, slacks) + rest
  {
    hide FromCanonical, Spelling, Spelled;
    if FromCanonical(b, prims) == Got(tx, rest) {
      var slack, slacks := Decoded(b, prims);
    }
    forall slack, slacks | Spelled(tx, slack, slacks, prims) && b == Spelling(tx, slack, slacks) + rest
      ensures FromCanonical(b, prims) == Got(tx, rest)
    {
      Encoded(tx, slack, slacks, rest, prims);
    }
  }

  // ------------------------------------------------------------ byte by byte

  /** Where signed payload, key and signature stand: [0, 152) fields, [152, 1469) key blob,
      [1469, 1473) length, [1473, 3898) signature blob. */
  lemma SpellingAt(tx: SignedTx, slack: seq<byte>, slacks: seq<seq<byte>>, rest: seq<byte>, prims: Primitives)
    requires Spelled(tx, slack, slacks, prims)
    ensures var b := Spelling(tx, slack, slacks) + rest;
      && |b| >= 3_902 + |slack| && b[..1_469] == UnsignedBytes(tx)
      && b[152..157] == [2] + LE(1_312, 4) && b[157..1_469] == tx.publicKey
      && b[1_469..1_473] == LE(2_425 + |slack|, 4) && FromLE(b[1_469..1_473]) == 2_425 + |slack|
      && b[1_473..1_478] == [2] + LE(2_420, 4) && b[1_478..3_898] == tx.signature
  {
    Joined(tx, slack, slacks, rest);
    var tail := LE(|tx.relayNodes|, 4) + (NodeBytes(tx.relayNodes)
      + (LE(|tx.relayProofs|, 4) + (ProofsSpelling(tx.relayProofs, slacks) + rest)));
    LERead(2_425 + |slack|, 4);
    FieldsAt(HeadBytes(tx), tx.publicKey, tx.signature, slack, tail);
    hide HeadBytes, LE, FromLE, NodeBytes, ProofsSpelling, Pow256, Spelling;
  }

  lemma FieldsAt(head: seq<byte>, key: seq<byte>, signature: seq<byte>, slack: seq<byte>, tail: seq<byte>)
    requires |head| == 152 && |key| == PK_LEN && |signature| == SIG_LEN && |tail| >= 4
    ensures var b := head + (Blob(key) + (Field(signature, slack) + tail));
      && |b| >= 3_902 + |slack| && b[..1_469] == head + Blob(key)
      && b[152..157] == [2] + LE(1_312, 4) && b[157..1_469] == key
      && b[1_469..1_473] == LE(2_425 + |slack|, 4)
      && b[1_473..1_478] == [2] + LE(2_420, 4) && b[1_478..3_898] == signature
  {
    hide LE;
  }

  /** Bytes that decode are the encoding of what they decode to if and only if it carries no
      relay proofs and the signature's length field says 2,425. */
  lemma ReencodesExactly(b: seq<byte>, prims: Primitives)
    requires FromCanonical(b, prims).Got?
    ensures |b| >= 3_902
    ensures var r := FromCanonical(b, prims);
      b == CanonicalBytes(r.value) + r.rest <==> r.value.relayProofs == [] && FromLE(b[1_469..1_473]) == 2_425
  {
    var r := FromCanonical(b, prims);
    var slack, slacks := Decoded(b, prims);
    SpellingAt(r.value, slack, slacks, r.rest, prims);
    hide FromCanonical, CanonicalBytes, Spelling, UnsignedBytes, FromLE, LE, Pow256;
    KeysFit(r.value.relayProofs, slacks, prims);
    DecodeInverts(r.value, r.rest, prims);
    if r.value.relayProofs == [] {
      CanonicalIs(r.value, slacks);
      if b == CanonicalBytes(r.value) + r.rest {
        assert Spelled(r.value, [], slacks, prims);
        SpellingAt(r.value, [], slacks, r.rest, prims);
      }
    }
  }

  lemma KeysFit(proofs: seq<CarrierProof>, slacks: seq<seq<byte>>, prims: Primitives)
    requires ProofsSigned(proofs, slacks, prims)
    ensures forall i :: 0 <= i < |proofs| ==> |proofs[i].publicKey| == PK_LEN
  {}

  lemma CanonicalIs(tx: SignedTx, slacks: seq<seq<byte>>)
    requires tx.relayProofs == [] && slacks == []
    ensures CanonicalBytes(tx) == Spelling(tx, [], slacks)
  {
    NoBytes();
    assert Blob(tx.signature) + [] == Blob(tx.signature);
    BlobLength(tx.signature);
    assert ProofsSpelling(tx.relayProofs, slacks) == [] == ProofBytes(tx.relayProofs);
    hide HeadBytes, Blob, LE, NodeBytes, ProofBytes, ProofsSpelling;
  }

  /** A key under the retired scheme is told from any other malformed one. */
  lemma KeyScheme(b: seq<byte>, prims: Primitives)
    requires |b| >= 157
    ensures b[152] == 1 ==> FromCanonical(b, prims) == Refused(ObsoleteScheme)
    ensures b[152] != 1 && (b[152] != 2 || FromLE(b[153..157]) != 1_312) ==>
      FromCanonical(b, prims) == Refused(InvalidEncoding)
  {
    HeadAt(b);
    hide TakeHead, TakeSignature, TakeLE, TakeNodes, TakeProofs, FromLE;
    var rest := b[152..];
    assert rest[0] == b[152] && rest[1..5] == b[153..157];
  }
}
