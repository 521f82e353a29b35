/** What the checksum of src/kron/bech32.rs is, by section "Checksum" of BIP-173: the remainder
    of a polynomial over GF(32) modulo a generator of degree six. */
module Generator {
  import opened Bytes
  import opened Checksum

  // ------------------------------------------------------------------ GF(32)

  /** Times the generating element of GF(2)[x] / (x^5 + x^3 + 1). */
  function Double(a: bv32): bv32 {
    (a << 1) ^ (if a & 16 == 16 then 0x29 else 0)
  }

  /** The product of two elements of GF(32). */
  function Times(a: bv32, b: bv32): bv32 {
    (if b & 1 == 1 then a else 0)
    ^ (if b & 2 == 2 then Double(a) else 0)
    ^ (if b & 4 == 4 then Double(Double(a)) else 0)
    ^ (if b & 8 == 8 then Double(Double(Double(a))) else 0)
    ^ (if b & 16 == 16 then Double(Double(Double(Double(a)))) else 0)
  }

  // ------------------------------------------------------------- polynomials

  /** Coefficients, highest power first. */
  type Poly = seq<bv32>

  /** x^6 + 29 x^5 + 22 x^4 + 20 x^3 + 21 x^2 + 29 x + 18 */
  const G: Poly := [1, 29, 22, 20, 21, 29, 18]

  function Zeroes(n: nat): (r: Poly)
    ensures |r| == n && forall i :: 0 <= i < n ==> r[i] == 0
  {
    seq(n, i => 0)
  }

  function Sum(p: Poly, q: Poly): (r: Poly)
    requires |p| == |q|
    ensures |r| == |p| && forall i :: 0 <= i < |p| ==> r[i] == Xor(p[i], q[i])
  {
    seq(|p|, i requires 0 <= i < |p| => Xor(p[i], q[i]))
  }

  function Scaled(c: bv32): (r: Poly)
    ensures |r| == 7 && forall i :: 0 <= i < 7 ==> r[i] == Times(G[i], c)
  {
    seq(7, i requires 0 <= i < 7 => Times(G[i], c))
  }

  /** q times the generator: each further coefficient of q makes room and adds a multiple. */
  function Product(q: Poly): (r: Poly)
    ensures |r| == |q| + 6
  {
    if q == [] then Zeroes(6)
    else
      var n := |q| - 1;
      Sum(Product(q[..n]) + [0], Zeroes(n) + Scaled(q[n]))
  }

  predicate InField(p: Poly) {
    forall i :: 0 <= i < |p| ==> p[i] < 32
  }

  /** p = q * G + r */
  ghost predicate Leaves(p: Poly, q: Poly, r: Poly) {
    |r| == 6 && |p| == |q| + 6 && InField(q) && p == Sum(Product(q), Zeroes(|q|) + r)
  }

  function Words(values: seq<Symbol>): (r: Poly)
    ensures |r| == |values| && forall i :: 0 <= i < |r| ==> r[i] == Word(values[i])
  {
    seq(|values|, i requires 0 <= i < |values| => Word(values[i]))
  }

  /** A leading 1, then the symbols; at least six coefficients. */
  function PolyOf(values: seq<Symbol>): (r: Poly)
    ensures |r| >= 6
  {
    (if |values| < 5 then Zeroes(5 - |values|) else []) + [1] + Words(values)
  }

  /** The six coefficients of a 30-bit word. */
  function Coefficients(w: bv32): (r: Poly)
    ensures |r| == 6 && forall i :: 0 <= i < 6 ==> r[i] == Field(w, i)
  {
    seq(6, i requires 0 <= i < 6 => Field(w, i))
  }

  // ------------------------------------------------------------ one division

  /** The word that a round folds back is the multiple of the generator's lower terms. */
  lemma MixIsMultiple(b: bv32, i: nat)
    requires b < 32 && i < 6
    ensures Field(Mix(b), i) == Times(G[i + 1], b)
  {
    MixIs(b);
    hide Mix;
    assert G[1] == 29 && G[2] == 22 && G[3] == 20 && G[4] == 21 && G[5] == 29 && G[6] == 18;
  }

  lemma UnitTimes(b: bv32)
    requires b < 32
    ensures Times(G[0], b) == b && Times(G[0], 0) == 0
  {}

  lemma NothingTimes(a: bv32)
    ensures Times(a, 0) == 0
  {
    hide Double;
  }

  lemma Adds25(x: bv32, y: bv32)
    ensures Low(Xor(x, y) >> 25) == Xor(Low(x >> 25), Low(y >> 25))
  {}

  lemma Adds20(x: bv32, y: bv32)
    ensures Low(Xor(x, y) >> 20) == Xor(Low(x >> 20), Low(y >> 20))
  {}

  lemma Adds15(x: bv32, y: bv32)
    ensures Low(Xor(x, y) >> 15) == Xor(Low(x >> 15), Low(y >> 15))
  {}

  lemma Adds10(x: bv32, y: bv32)
    ensures Low(Xor(x, y) >> 10) == Xor(Low(x >> 10), Low(y >> 10))
  {}

  lemma Adds5(x: bv32, y: bv32)
    ensures Low(Xor(x, y) >> 5) == Xor(Low(x >> 5), Low(y >> 5))
  {}

  lemma Adds0(x: bv32, y: bv32)
    ensures Low(Xor(x, y)) == Xor(Low(x), Low(y))
  {}

  lemma FieldAdds(x: bv32, y: bv32, i: nat)
    requires i < 6
    ensures Field(Xor(x, y), i) == Xor(Field(x, i), Field(y, i))
  {
    hide Xor, Low;
    if i == 0 { Adds25(x, y); }
    else if i == 1 { Adds20(x, y); }
    else if i == 2 { Adds15(x, y); }
    else if i == 3 { Adds10(x, y); }
    else if i == 4 { Adds5(x, y); }
    else { Adds0(x, y); }
  }

  lemma FieldsShift(c: bv32, i: nat)
    requires i < 6
    ensures Field(Shifted(c), i) == if i < 5 then Field(c, i + 1) else 0
  {}

  lemma FieldOfSymbol(v: bv32, i: nat)
    requires i < 6 && v < 32
    ensures Field(v, i) == if i < 5 then 0 else v
  {}

  lemma TopField(c: bv32)
    requires c < 0x40000000
    ensures High(c) == Field(c, 0) < 32
  {}

  /** A round divides once: what falls out is subtracted as that multiple of the generator. */
  lemma StepDivides(c: bv32, v: bv32, i: nat)
    requires c < 0x40000000 && v < 32 && i < 6
    ensures Field(Step(c, v), i) == Xor(if i < 5 then Field(c, i + 1) else v, Times(G[i + 1], Field(c, 0)))
  {
    hide Xor, Shifted, High, Mix, Field, Times;
    TopField(c);
    FieldAdds(Xor(Shifted(c), v), Mix(High(c)), i);
    FieldAdds(Shifted(c), v, i);
    FieldsShift(c, i);
    FieldOfSymbol(v, i);
    MixIsMultiple(High(c), i);
    XorZero(Field(c, if i < 5 then i + 1 else 0));
    ZeroXor(v);
  }

  lemma ZeroXor(b: bv32)
    ensures Xor(0, b) == b
  {}

  lemma PolyMore(values: seq<Symbol>, v: Symbol)
    ensures PolyOf(values + [v]) == (if |values| < 5 then PolyOf(values)[1..] else PolyOf(values)) + [Word(v)]
    ensures |values| < 5 ==> PolyOf(values)[0] == 0
  {
    hide Word;
  }

  lemma ExtendSmall(c: bv32, v: bv32)
    requires c < 0x40000000 && v < 32 && Field(c, 0) == 0
    ensures Coefficients(Step(c, v)) == Coefficients(c)[1..] + [v]
  {
    hide Step, Field, Times, Xor;
    forall i | 0 <= i < 6 ensures Coefficients(Step(c, v))[i] == (Coefficients(c)[1..] + [v])[i] {
      StepDivides(c, v, i);
      NothingTimes(G[i + 1]);
      XorZero(if i < 5 then Field(c, i + 1) else v);
    }
  }

  lemma Cancels(x: bv32, a: bv32, b: bv32)
    ensures Xor(Xor(x, a), Xor(b, a)) == Xor(x, b)
  {
    assert (x ^ a) ^ (b ^ a) == x ^ b;
  }

  /** One more symbol, one more coefficient of the quotient. */
  lemma ExtendDivision(p: Poly, q: Poly, c: bv32, v: bv32)
    requires c < 0x40000000 && v < 32 && Leaves(p, q, Coefficients(c))
    ensures Leaves(p + [v], q + [Field(c, 0)], Coefficients(Step(c, v)))
  {
    hide Step, Field, Times, Xor, Product;
    var b, n := Field(c, 0), |q|;
    TopField(c);
    var r := Sum(Product(q + [b]), Zeroes(n + 1) + Coefficients(Step(c, v)));
    forall k | 0 <= k < n + 7 ensures r[k] == (p + [v])[k] {
      ProductAt(q, b, k);
      if k < n {
        XorZero(Product(q)[k]);
      } else if k == n {
        XorZero(Xor(Product(q)[k], b));
      } else {
        StepDivides(c, v, k - n - 1);
        Cancels(if k < n + 6 then Product(q)[k] else 0, Times(G[k - n], b), if k < n + 6 then Field(c, k - n) else v);
        ZeroXor(v);
      }
    }
  }

  lemma ProductNext(q: Poly, b: bv32)
    ensures Product(q + [b]) == Sum(Product(q) + [0], Zeroes(|q|) + Scaled(b))
  {
    hide Sum, Scaled;
    assert (q + [b])[..|q|] == q;
  }

  /** A coefficient of the next product. */
  lemma ProductAt(q: Poly, b: bv32, k: nat)
    requires b < 32 && k < |q| + 7
    ensures k < |q| ==> Product(q + [b])[k] == Product(q)[k]
    ensures k == |q| ==> Product(q + [b])[k] == Xor(Product(q)[k], b)
    ensures k > |q| ==>
      Product(q + [b])[k] == Xor(if k < |q| + 6 then Product(q)[k] else 0, Times(G[k - |q|], b))
  {
    ProductNext(q, b);
    UnitTimes(b);
    hide Times, Xor, Product;
    var next, more := Product(q) + [0], Zeroes(|q|) + Scaled(b);
    assert Sum(next, more)[k] == Xor(next[k], more[k]);
    if k < |q| { XorZero(next[k]); } else { assert more[k] == Scaled(b)[k - |q|]; }
  }

  /** The quotient of a polynomial by the generator. */
  ghost function Quotient(values: seq<Symbol>): (q: Poly)
    decreases |values|
  {
    if |values| <= 5 then []
    else
      var n := |values| - 1;
      Quotient(values[..n]) + [Field(Polymod(values[..n]), 0)]
  }

  lemma {:induction false} PolymodDivides(values: seq<Symbol>)
    ensures Leaves(PolyOf(values), Quotient(values), Coefficients(Polymod(values)))
    ensures |values| <= 5 ==> PolyOf(values) == Coefficients(Polymod(values))
  {
    hide Step, Word, Field, Product, Leaves, Xor;
    if values == [] {
      UnitCoefficients();
      NothingDivided(PolyOf(values));
      assert PolyOf(values) == [0, 0, 0, 0, 0, 1];
    } else {
      var n := |values| - 1;
      var p, v := values[..n], values[n];
      assert values == p + [v];
      PolymodDivides(p);
      PolymodBound(p);
      PolymodMore(p, v);
      WordIs(v);
      PolyMore(p, v);
      if n < 5 {
        ExtendSmall(Polymod(p), Word(v));
        NothingDivided(PolyOf(values));
      } else {
        ExtendDivision(PolyOf(p), Quotient(p), Polymod(p), Word(v));
      }
    }
  }

  lemma UnitCoefficients()
    ensures Coefficients(1) == [0, 0, 0, 0, 0, 1]
  {}

  lemma NothingDivided(p: Poly)
    requires |p| == 6
    ensures Leaves(p, [], p)
  {
    hide Xor;
    forall i | 0 <= i < 6 ensures Sum(Product([]), Zeroes(0) + p)[i] == p[i] { ZeroXor(p[i]); }
  }

  // ------------------------------------------------------------- uniqueness

  lemma XorCancels(x: bv32, a: bv32, b: bv32)
    requires Xor(x, a) == Xor(x, b)
    ensures a == b
  {
    assert x ^ (x ^ a) == a && x ^ (x ^ b) == b;
  }

  /** The leading coefficients of a product determine the factor. */
  lemma {:induction false} LeadingExact(p: Poly, q: Poly)
    requires |p| == |q| && InField(p) && InField(q)
    requires forall k :: 0 <= k < |p| ==> Product(p)[k] == Product(q)[k]
    ensures p == q
  {
    hide Product, Xor, Times;
    if p != [] {
      var n := |p| - 1;
      assert p == p[..n] + [p[n]] && q == q[..n] + [q[n]];
      forall k | 0 <= k < n ensures Product(p[..n])[k] == Product(q[..n])[k] {
        ProductAt(p[..n], p[n], k);
        ProductAt(q[..n], q[n], k);
        assert Product(p)[k] == Product(q)[k];
      }
      LeadingExact(p[..n], q[..n]);
      ProductAt(p[..n], p[n], n);
      ProductAt(q[..n], q[n], n);
      assert Product(p)[n] == Product(q)[n];
      XorCancels(Product(p[..n])[n], p[n], q[n]);
    }
  }

  lemma DivisionUnique(p: Poly, q: Poly, r: Poly, q': Poly, r': Poly)
    requires Leaves(p, q, r) && Leaves(p, q', r')
    ensures q == q' && r == r'
  {
    hide Product, Xor;
    forall k | 0 <= k < |q| ensures Product(q)[k] == Product(q')[k] {
      assert p[k] == Xor(Product(q)[k], 0) && p[k] == Xor(Product(q')[k], 0);
      XorZero(Product(q)[k]);
      XorZero(Product(q')[k]);
    }
    LeadingExact(q, q');
    forall i | 0 <= i < 6 ensures r[i] == r'[i] {
      assert p[|q| + i] == Xor(Product(q)[|q| + i], r[i]) && p[|q| + i] == Xor(Product(q)[|q| + i], r'[i]);
      XorCancels(Product(q)[|q| + i], r[i], r'[i]);
    }
  }

  // ------------------------------------------------------------ main results

  /** `polymod` computes the remainder: its six coefficients are the r, and no other, with
      PolyOf(values) = q * G + r for some q. */
  lemma PolymodExact(values: seq<Symbol>, r: Poly)
    ensures r == Coefficients(Polymod(values)) <==> exists q :: Leaves(PolyOf(values), q, r)
  {
    hide Leaves, Polymod, PolyOf, Coefficients;
    PolymodDivides(values);
    forall q | Leaves(PolyOf(values), q, r) ensures r == Coefficients(Polymod(values)) {
      DivisionUnique(PolyOf(values), q, r, Quotient(values), Coefficients(Polymod(values)));
    }
  }

  /** Up to five symbols nothing is divided: the remainder is 1 followed by the symbols. */
  lemma ShortExact(values: seq<Symbol>)
    requires |values| <= 5
    ensures Coefficients(Polymod(values)) == Zeroes(5 - |values|) + [1] + Words(values)
  {
    hide Polymod, Coefficients, Words;
    PolymodDivides(values);
    assert |values| == 5 ==> Zeroes(0) == [];
  }

  lemma SameCoefficients(a: bv32, b: bv32)
    requires a < 0x40000000 && b < 0x40000000 && Coefficients(a) == Coefficients(b)
    ensures a == b
  {
    assert Field(a, 0) == Field(b, 0) && Field(a, 1) == Field(b, 1) && Field(a, 2) == Field(b, 2);
    assert Field(a, 3) == Field(b, 3) && Field(a, 4) == Field(b, 4) && Field(a, 5) == Field(b, 5);
  }

  /** A word verifies if and only if its polynomial, human-readable part included, is 1 modulo
      the generator. */
  lemma VerifiesExactly(hrp: seq<byte>, data: seq<Symbol>)
    ensures VerifyChecksum(hrp, data) <==>
      exists q :: Leaves(PolyOf(HrpExpand(hrp) + data), q, [0, 0, 0, 0, 0, 1])
  {
    hide Leaves, Polymod, PolyOf, HrpExpand;
    var values := HrpExpand(hrp) + data;
    UnitCoefficients();
    PolymodExact(values, [0, 0, 0, 0, 0, 1]);
    PolymodBound(values);
    hide Coefficients;
    if Coefficients(Polymod(values)) == Coefficients(1) { SameCoefficients(Polymod(values), 1); }
  }
}
