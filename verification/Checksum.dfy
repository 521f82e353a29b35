/** The BCH checksum of BIP-173 ("Checksum"), as src/kron/bech32.rs computes it. */
module Checksum {
  import opened Bytes

  /** A five-bit symbol. */
  type Symbol = n: int | 0 <= n < 32

  const GEN: seq<bv32> := [0x3b6a57b2, 0x26508e6d, 0x1ea119fa, 0x3d4233dd, 0x2a1462b3]

  function Word(v: Symbol): bv32 { v as bv32 }

  function Xor(a: bv32, b: bv32): bv32 { a ^ b }

  /** The five bits a step shifts out. */
  function High(c: bv32): bv32 { c >> 25 }

  /** The low 25 bits, moved up to make room for a symbol. */
  function Shifted(c: bv32): bv32 { (c & 0x1ffffff) << 5 }

  function Bit(b: bv32, i: nat): bool
    requires i < 5
  {
    (b >> i) & 1 == 1
  }

  /** The generators selected by the first k bits of `b`. */
  function MixUpTo(b: bv32, k: nat): bv32
    requires k <= 5
  {
    if k == 0 then 0 else if Bit(b, k - 1) then Xor(MixUpTo(b, k - 1), GEN[k - 1]) else MixUpTo(b, k - 1)
  }

  function Mix(b: bv32): bv32 { MixUpTo(b, 5) }

  /** One round: shift in a symbol, fold back what falls out. */
  function Step(c: bv32, v: bv32): bv32 {
    Xor(Xor(Shifted(c), v), Mix(High(c)))
  }

  function Polymod(values: seq<Symbol>): bv32 {
    if values == [] then 1 else Step(Polymod(values[..|values| - 1]), Word(values[|values| - 1]))
  }

  method RunPolymod(values: seq<Symbol>) returns (chk: bv32)
    ensures chk == Polymod(values)
  {
    hide Step, Xor, Shifted, High, Mix, Word;
    chk := 1;
    for i := 0 to |values|
      invariant chk == Polymod(values[..i])
    {
      assert values[..i + 1][..i] == values[..i];
      chk := RunStep(chk, Word(values[i]));
    }
    assert values[..|values|] == values;
  }

  method RunStep(c: bv32, v: bv32) returns (chk: bv32)
    ensures chk == Step(c, v)
  {
    hide MixUpTo, Xor, Bit;
    var b := High(c);
    chk := Xor(Shifted(c), v);
    ghost var start := chk;
    MixStart(start, b);
    for i := 0 to |GEN|
      invariant chk == Xor(start, MixUpTo(b, i))
    {
      MixNext(start, b, i);
      if Bit(b, i) {
        chk := Xor(chk, GEN[i]);
      }
    }
  }

  lemma MixStart(x: bv32, b: bv32)
    ensures Xor(x, MixUpTo(b, 0)) == x
  {}

  lemma MixNext(x: bv32, b: bv32, i: nat)
    requires i < 5
    ensures Xor(x, MixUpTo(b, i + 1)) == if Bit(b, i) then Xor(Xor(x, MixUpTo(b, i)), GEN[i]) else Xor(x, MixUpTo(b, i))
  {
    hide Xor, Bit;
    XorAssoc(x, MixUpTo(b, i), GEN[i]);
  }

  lemma XorAssoc(a: bv32, b: bv32, c: bv32)
    ensures Xor(a, Xor(b, c)) == Xor(Xor(a, b), c)
  {}

  // ------------------------------------------------- one round is a bijection

  /** The low five bits of the generators are linearly independent. */
  lemma MixInjective(t: bv32, u: bv32)
    requires t < 32 && u < 32 && Mix(t) & 31 == Mix(u) & 31
    ensures t == u
  {
    MixIs(t);
    MixIs(u);
    hide MixUpTo;
  }

  lemma MixIs(b: bv32)
    ensures Mix(b) == (if b & 1 == 1 then 0x3b6a57b2 else 0) ^ (if b & 2 == 2 then 0x26508e6d else 0)
                      ^ (if b & 4 == 4 then 0x1ea119fa else 0) ^ (if b & 8 == 8 then 0x3d4233dd else 0)
                      ^ (if b & 16 == 16 then 0x2a1462b3 else 0)
  {
    assert GEN[0] == 0x3b6a57b2 && GEN[1] == 0x26508e6d && GEN[2] == 0x1ea119fa;
    assert GEN[3] == 0x3d4233dd && GEN[4] == 0x2a1462b3;
    assert MixUpTo(b, 0) == 0;
    assert MixUpTo(b, 1) == if Bit(b, 0) then Xor(0, GEN[0]) else 0;
    assert MixUpTo(b, 2) == if Bit(b, 1) then Xor(MixUpTo(b, 1), GEN[1]) else MixUpTo(b, 1);
    assert MixUpTo(b, 3) == if Bit(b, 2) then Xor(MixUpTo(b, 2), GEN[2]) else MixUpTo(b, 2);
    assert MixUpTo(b, 4) == if Bit(b, 3) then Xor(MixUpTo(b, 3), GEN[3]) else MixUpTo(b, 3);
  }

  lemma LowBits(c: bv32, v: bv32, m: bv32)
    ensures Xor(Xor(Shifted(c), v), m) & 31 == (v & 31) ^ (m & 31)
  {}

  lemma CancelLow(v: bv32, m: bv32, n: bv32)
    requires v ^ m == v ^ n
    ensures m == n
  {}

  lemma CancelMix(p: bv32, q: bv32, v: bv32, m: bv32)
    requires Xor(Xor(p, v), m) == Xor(Xor(q, v), m)
    ensures p == q
  {}

  lemma Unshift(a: bv32, b: bv32)
    requires a < 0x40000000 && b < 0x40000000 && Shifted(a) == Shifted(b) && High(a) == High(b)
    ensures a == b
  {}

  lemma HighBound(a: bv32)
    requires a < 0x40000000
    ensures High(a) < 32
  {}

  /** For each symbol the round is injective on 30-bit states: nothing is ever forgotten. */
  lemma StepInjective(a: bv32, b: bv32, v: bv32)
    requires a < 0x40000000 && b < 0x40000000 && Step(a, v) == Step(b, v)
    ensures a == b
  {
    hide Xor, Shifted, High, Mix;
    LowBits(a, v, Mix(High(a)));
    LowBits(b, v, Mix(High(b)));
    CancelLow(v & 31, Mix(High(a)) & 31, Mix(High(b)) & 31);
    HighBound(a);
    HighBound(b);
    MixInjective(High(a), High(b));
    CancelMix(Shifted(a), Shifted(b), v, Mix(High(a)));
    Unshift(a, b);
  }

  lemma MixBound(b: bv32)
    ensures Mix(b) < 0x40000000
  {
    MixIs(b);
    hide Mix;
  }

  lemma XorBound(p: bv32, v: bv32, m: bv32)
    requires v < 32 && m < 0x40000000
    ensures Xor(Xor(Shifted(p), v), m) < 0x40000000
  {}

  lemma WordSmall(v: Symbol)
    ensures Word(v) < 32
  {}

  lemma IntBack(v: int)
    requires 0 <= v < 32
    ensures (v as bv32) as int == v
  {}

  lemma WordBack(v: Symbol)
    ensures Word(v) as int == v
  {
    IntBack(v);
  }

  lemma WordIs(v: Symbol)
    ensures Word(v) < 32 && Word(v) as int == v
  {
    WordSmall(v);
    WordBack(v);
    hide Word;
  }

  lemma {:induction false} PolymodBound(values: seq<Symbol>)
    ensures Polymod(values) < 0x40000000
  {
    hide Xor, Shifted, High, Mix, Word;
    if values != [] {
      var n := |values| - 1;
      PolymodBound(values[..n]);
      MixBound(High(Polymod(values[..n])));
      WordIs(values[n]);
      XorBound(Polymod(values[..n]), Word(values[n]), Mix(High(Polymod(values[..n]))));
    }
  }

  lemma PolymodMore(values: seq<Symbol>, v: Symbol)
    ensures Polymod(values + [v]) == Step(Polymod(values), Word(v))
  {
    hide Step;
    assert (values + [v])[..|values|] == values;
  }

  lemma DifferentSymbols(c: bv32, m: bv32, v: bv32, w: bv32)
    requires Xor(Xor(c, v), m) == Xor(Xor(c, w), m)
    ensures v == w
  {}

  /** Replacing one symbol always changes the remainder. */
  lemma {:induction false} OneSymbol(p: seq<Symbol>, v: Symbol, w: Symbol, q: seq<Symbol>)
    requires v != w
    ensures Polymod(p + [v] + q) != Polymod(p + [w] + q)
  {
    hide Xor, Shifted, High, Mix, Word;
    if q == [] {
      assert p + [v] + q == p + [v] && p + [w] + q == p + [w];
      PolymodMore(p, v);
      PolymodMore(p, w);
      WordIs(v);
      WordIs(w);
      if Polymod(p + [v]) == Polymod(p + [w]) {
        DifferentSymbols(Shifted(Polymod(p)), Mix(High(Polymod(p))), Word(v), Word(w));
      }
    } else {
      var n := |q| - 1;
      OneSymbol(p, v, w, q[..n]);
      var a, b := p + [v] + q[..n], p + [w] + q[..n];
      assert p + [v] + q == a + [q[n]] && p + [w] + q == b + [q[n]];
      PolymodMore(a, q[n]);
      PolymodMore(b, q[n]);
      PolymodBound(a);
      PolymodBound(b);
      if Step(Polymod(a), Word(q[n])) == Step(Polymod(b), Word(q[n])) {
        StepInjective(Polymod(a), Polymod(b), Word(q[n]));
      }
    }
  }

  // ---------------------------------------------------------------- linearity

  /** Makes room for one symbol. */
  function Up(x: bv32): bv32 { x << 5 }

  /** The first k symbols of a checksum, packed into one word. */
  function PackUpTo(c: seq<Symbol>, k: nat): bv32
    requires k <= |c|
  {
    if k == 0 then 0 else Xor(Up(PackUpTo(c, k - 1)), Word(c[k - 1]))
  }

  /** `x` fits k symbols. */
  predicate FitsIn(x: bv32, k: nat)
    requires k <= 6
  {
    x < (if k == 0 then 1 else if k == 1 then 0x20 else if k == 2 then 0x400 else if k == 3 then 0x8000
         else if k == 4 then 0x100000 else if k == 5 then 0x2000000 else 0x40000000)
  }

  lemma PackStepBound(x: bv32, v: bv32, k: nat)
    requires k < 6 && FitsIn(x, k) && v < 32
    ensures FitsIn(Xor(Up(x), v), k + 1) && x < 0x2000000
  {}

  lemma ZeroFits()
    ensures FitsIn(0, 0)
  {}

  lemma {:induction false} PackBound(c: seq<Symbol>, k: nat)
    requires k <= 6 && k <= |c|
    ensures FitsIn(PackUpTo(c, k), k)
    ensures k < 6 ==> PackUpTo(c, k) < 0x2000000
  {
    hide Xor, Word, FitsIn, Up;
    if k == 0 {
      assert PackUpTo(c, 0) == 0;
      ZeroFits();
    } else {
      PackBound(c, k - 1);
      WordIs(c[k - 1]);
      PackStepBound(PackUpTo(c, k - 1), Word(c[k - 1]), k - 1);
    }
    if k < 6 { PackStepBound(PackUpTo(c, k), 0, k); }
  }

  lemma HighKept(a: bv32, x: bv32)
    requires x < 0x2000000
    ensures High(Xor(a, x)) == High(a)
  {}

  lemma ShiftedAdds(a: bv32, x: bv32)
    requires x < 0x2000000
    ensures Shifted(Xor(a, x)) == Xor(Shifted(a), Up(x))
  {}

  lemma Regather(p: bv32, q: bv32, v: bv32, m: bv32)
    ensures Xor(Xor(Xor(p, q), v), m) == Xor(Xor(Xor(p, 0), m), Xor(q, v))
  {}

  /** A round is linear while the difference has not reached the top. */
  lemma StepLinear(a: bv32, x: bv32, v: bv32)
    requires x < 0x2000000
    ensures Step(Xor(a, x), v) == Xor(Step(a, 0), Xor(Up(x), v))
  {
    hide Xor, Shifted, High, Mix, Up;
    HighKept(a, x);
    ShiftedAdds(a, x);
    Regather(Shifted(a), Up(x), v, Mix(High(a)));
  }

  function Zeros(k: nat): (r: seq<Symbol>)
    ensures |r| == k
  {
    if k == 0 then [] else Zeros(k - 1) + [0]
  }

  /** Symbols appended in place of zeros are added to the remainder as one packed word. */
  lemma {:induction false} TailAdds(p: seq<Symbol>, c: seq<Symbol>, k: nat)
    requires k <= 6 && k <= |c|
    ensures Polymod(p + c[..k]) == Xor(Polymod(p + Zeros(k)), PackUpTo(c, k))
  {
    hide Xor, Step, Word, Up;
    if k == 0 {
      assert p + c[..0] == p && p + Zeros(0) == p;
      XorZero(Polymod(p));
    } else {
      TailAdds(p, c, k - 1);
      assert p + c[..k] == (p + c[..k - 1]) + [c[k - 1]];
      assert p + Zeros(k) == (p + Zeros(k - 1)) + [0];
      PolymodMore(p + c[..k - 1], c[k - 1]);
      PolymodMore(p + Zeros(k - 1), 0);
      PackBound(c, k - 1);
      ZeroWord();
      StepLinear(Polymod(p + Zeros(k - 1)), PackUpTo(c, k - 1), Word(c[k - 1]));
    }
  }

  lemma XorZero(a: bv32)
    ensures Xor(a, 0) == a
  {}

  lemma ZeroWord()
    ensures Word(0) == 0
  {}

  // ------------------------------------------------------------ the checksum

  function Low(x: bv32): bv32 { x & 31 }

  /** The first i of the six symbols of a 30-bit word: `w >> (5 * (6 - i))`. */
  function Top(w: bv32, i: nat): bv32
    requires i <= 6
  {
    if i == 0 then 0 else if i == 1 then w >> 25 else if i == 2 then w >> 20 else if i == 3 then w >> 15
    else if i == 4 then w >> 10 else if i == 5 then w >> 5 else w
  }

  /** `(w >> (5 * (5 - i))) & 31` */
  function Field(w: bv32, i: nat): bv32
    requires i < 6
  {
    Low(Top(w, i + 1))
  }

  lemma Small(b: bv32)
    requires b < 32
    ensures b as int < 32 && (b as int) as bv32 == b
  {}

  lemma LowSmall(x: bv32)
    ensures Low(x) < 32
  {}

  lemma FieldSmall(w: bv32, i: nat)
    requires i < 6
    ensures Field(w, i) < 32
  {
    hide Top, Low;
    LowSmall(Top(w, i + 1));
  }

  function Nibble(w: bv32, i: nat): (r: Symbol)
    requires i < 6
  {
    FieldSmall(w, i);
    Small(Field(w, i));
    Field(w, i) as int
  }

  lemma NibbleWord(w: bv32, i: nat)
    requires i < 6
    ensures Word(Nibble(w, i)) == Field(w, i)
  {
    FieldSmall(w, i);
    Small(Field(w, i));
    hide Field;
  }

  /** The six symbols of a word, most significant first. */
  function Unpack(w: bv32): (r: seq<Symbol>)
    ensures |r| == 6
  {
    [Nibble(w, 0), Nibble(w, 1), Nibble(w, 2), Nibble(w, 3), Nibble(w, 4), Nibble(w, 5)]
  }

  function Five(x: bv32): bv32 { x >> 5 }

  lemma Peel(x: bv32)
    ensures Xor(Up(Five(x)), Low(x)) == x
  {}

  lemma ShiftsAdd(w: bv32)
    ensures Five(w) == w >> 5 && Five(w >> 5) == w >> 10 && Five(w >> 10) == w >> 15
    ensures Five(w >> 15) == w >> 20 && Five(w >> 20) == w >> 25
    ensures w < 0x40000000 ==> Five(w >> 25) == 0
  {}

  lemma TopDown(w: bv32, i: nat)
    requires w < 0x40000000 && i < 6
    ensures Five(Top(w, i + 1)) == Top(w, i)
  {
    hide Five;
    ShiftsAdd(w);
  }

  lemma TopNext(w: bv32, i: nat)
    requires w < 0x40000000 && i < 6
    ensures Xor(Up(Top(w, i)), Field(w, i)) == Top(w, i + 1)
  {
    hide Xor, Up, Low, Five, Top;
    TopDown(w, i);
    Peel(Top(w, i + 1));
  }

  lemma {:induction false} PackTop(w: bv32, i: nat)
    requires w < 0x40000000 && i <= 6
    ensures PackUpTo(Unpack(w), i) == Top(w, i)
  {
    hide Xor, Up, Field, Nibble, Word;
    if i == 0 {
      assert PackUpTo(Unpack(w), 0) == 0;
    } else {
      PackTop(w, i - 1);
      NibbleWord(w, i - 1);
      assert Unpack(w)[i - 1] == Nibble(w, i - 1);
      TopNext(w, i - 1);
    }
  }

  lemma PackStepInjective(x: bv32, y: bv32, u: bv32, v: bv32)
    requires x < 0x2000000 && y < 0x2000000 && u < 32 && v < 32 && Xor(Up(x), u) == Xor(Up(y), v)
    ensures x == y && u == v
  {}

  lemma {:induction false} PackInjective(c: seq<Symbol>, d: seq<Symbol>, k: nat)
    requires k <= 6 && k <= |c| && k <= |d| && PackUpTo(c, k) == PackUpTo(d, k)
    ensures c[..k] == d[..k]
  {
    hide Xor, Word, Up;
    if k > 0 {
      PackBound(c, k - 1);
      PackBound(d, k - 1);
      WordIs(c[k - 1]);
      WordIs(d[k - 1]);
      PackStepInjective(PackUpTo(c, k - 1), PackUpTo(d, k - 1), Word(c[k - 1]), Word(d[k - 1]));
      PackInjective(c, d, k - 1);
      assert c[..k] == c[..k - 1] + [c[k - 1]] && d[..k] == d[..k - 1] + [d[k - 1]];
    }
  }

  function HighHalves(hrp: seq<byte>): seq<Symbol> {
    if hrp == [] then [] else HighHalves(hrp[..|hrp| - 1]) + [hrp[|hrp| - 1] / 32]
  }

  function LowHalves(hrp: seq<byte>): seq<Symbol> {
    if hrp == [] then [] else LowHalves(hrp[..|hrp| - 1]) + [hrp[|hrp| - 1] % 32]
  }

  function HrpExpand(hrp: seq<byte>): seq<Symbol> {
    HighHalves(hrp) + [0] + LowHalves(hrp)
  }

  function CreateChecksum(hrp: seq<byte>, data: seq<Symbol>): (r: seq<Symbol>)
    ensures |r| == 6
  {
    Unpack(Xor(Polymod(HrpExpand(hrp) + data + Zeros(6)), 1))
  }

  predicate VerifyChecksum(hrp: seq<byte>, data: seq<Symbol>) {
    Polymod(HrpExpand(hrp) + data) == 1
  }

  lemma XorBack(z: bv32)
    ensures Xor(z, Xor(z, 1)) == 1
  {}

  lemma SolveForOne(z: bv32, x: bv32)
    requires Xor(z, x) == 1
    ensures x == Xor(z, 1)
  {
    assert z ^ x == 1;
    assert z ^ (z ^ x) == x;
  }

  lemma XorOneBound(z: bv32)
    requires z < 0x40000000
    ensures Xor(z, 1) < 0x40000000
  {}

  /** Six trailing symbols verify if and only if they are the checksum of what precedes
      them, for any human-readable part and any data. */
  lemma ChecksumUnique(hrp: seq<byte>, data: seq<Symbol>, c: seq<Symbol>)
    requires |c| == 6
    ensures VerifyChecksum(hrp, data + c) <==> c == CreateChecksum(hrp, data)
  {
    hide Xor, Polymod, Unpack, PackUpTo, HrpExpand, Zeros;
    var p := HrpExpand(hrp) + data;
    var z := Polymod(p + Zeros(6));
    assert HrpExpand(hrp) + (data + c) == p + c && c[..6] == c;
    TailAdds(p, c, 6);
    if Xor(z, PackUpTo(c, 6)) == 1 { SolveForOne(z, PackUpTo(c, 6)); }
    XorBack(z);
    PolymodBound(p + Zeros(6));
    XorOneBound(z);
    PackTop(Xor(z, 1), 6);
    var right := CreateChecksum(hrp, data);
    if PackUpTo(c, 6) == Xor(z, 1) {
      PackInjective(c, right, 6);
      assert right[..6] == right;
    }
  }

  /** Replacing one symbol of a verified word is always noticed. */
  lemma SingleErrorDetected(hrp: seq<byte>, data: seq<Symbol>, i: nat, w: Symbol)
    requires VerifyChecksum(hrp, data) && i < |data| && w != data[i]
    ensures !VerifyChecksum(hrp, data[i := w])
  {
    hide Polymod, HrpExpand;
    var p, q := HrpExpand(hrp) + data[..i], data[i + 1..];
    assert HrpExpand(hrp) + data == p + [data[i]] + q;
    assert HrpExpand(hrp) + data[i := w] == p + [w] + q;
    OneSymbol(p, data[i], w, q);
  }

  /** The human-readable part "kron" expands to its high bits, a zero and its low bits. */
  lemma KronExpands()
    ensures HrpExpand([0x6B, 0x72, 0x6F, 0x6E]) == [3, 3, 3, 3, 0, 11, 18, 15, 14]
  {
    var h: seq<byte> := [0x6B, 0x72, 0x6F, 0x6E];
    assert h[..1] == [0x6B] && h[..2] == [0x6B, 0x72] && h[..3] == [0x6B, 0x72, 0x6F];
    assert h[..1][..0] == [] && h[..2][..1] == h[..1] && h[..3][..2] == h[..2];
    assert HighHalves(h[..1]) == [3] && LowHalves(h[..1]) == [11];
    assert HighHalves(h[..2]) == [3, 3] && LowHalves(h[..2]) == [11, 18];
    assert HighHalves(h[..3]) == [3, 3, 3] && LowHalves(h[..3]) == [11, 18, 15];
  }

  // ------------------------------------------------------ the source's loops

  method ExpandHrp(hrp: seq<byte>) returns (out: seq<Symbol>)
    ensures out == HrpExpand(hrp)
  {
    out := [];
    for i := 0 to |hrp|
      invariant out == HighHalves(hrp[..i])
    {
      assert hrp[..i + 1][..i] == hrp[..i];
      out := out + [hrp[i] / 32];
    }
    assert hrp[..|hrp|] == hrp;
    out := out + [0];
    for i := 0 to |hrp|
      invariant out == HighHalves(hrp) + [0] + LowHalves(hrp[..i])
    {
      assert hrp[..i + 1][..i] == hrp[..i];
      out := out + [hrp[i] % 32];
    }
  }

  method MakeChecksum(hrp: seq<byte>, data: seq<Symbol>) returns (out: seq<Symbol>)
    ensures out == CreateChecksum(hrp, data)
  {
    hide Polymod, HrpExpand, Xor, Nibble;
    var values := ExpandHrp(hrp);
    values := values + data;
    SixZeros();
    values := values + [0, 0, 0, 0, 0, 0];
    var remainder := RunPolymod(values);
    var polymod := Xor(remainder, 1);
    out := [];
    for i := 0 to 6
      invariant out == Unpack(polymod)[..i]
    {
      out := out + [Nibble(polymod, i)];
    }
  }

  lemma SixZeros()
    ensures Zeros(6) == [0, 0, 0, 0, 0, 0]
  {
    assert Zeros(1) == [0] && Zeros(2) == [0, 0] && Zeros(3) == [0, 0, 0];
    assert Zeros(4) == [0, 0, 0, 0] && Zeros(5) == [0, 0, 0, 0, 0];
  }
}
