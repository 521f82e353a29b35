/** `convert_bits` (src/kron/bech32.rs): regrouping a big-endian number from one digit size
    to another. */
module Regroup {
  import opened Basics
  import opened Arithmetic

  function Pow2(k: nat): (r: nat)
    ensures r > 0
  {
    if k == 0 then 1 else 2 * Pow2(k - 1)
  }

  lemma {:induction false} Pow2Add(a: nat, b: nat)
    ensures Pow2(a + b) == Pow2(a) * Pow2(b)
  {
    if a > 0 {
      Pow2Add(a - 1, b);
      Assoc(2, Pow2(a - 1), Pow2(b));
    }
  }

  /** The bits above `a`, cut at `a + b`, and the bits below `a`. */
  lemma Bits(n: nat, a: nat, b: nat)
    ensures n / Pow2(a) / Pow2(b) == n / Pow2(a + b)
    ensures (n % Pow2(a + b)) / Pow2(a) == (n / Pow2(a)) % Pow2(b)
    ensures (n % Pow2(a + b)) % Pow2(a) == n % Pow2(a)
  {
    hide Pow2;
    Pow2Add(a, b);
    DivDiv(n, Pow2(a), Pow2(b));
  }

  // -------------------------------------------------------- numbers and digits

  /** The number whose w-bit digits, most significant first, are `s`. */
  function Value(s: seq<nat>, w: nat): nat {
    if s == [] then 0 else Value(s[..|s| - 1], w) * Pow2(w) + s[|s| - 1]
  }

  function Quotient(n: nat, d: nat): nat
    requires d > 0
  {
    Divides(n, d);
    n / d
  }

  function Remainder(n: nat, d: nat): nat
    requires d > 0
  {
    n % d
  }

  /** The k lowest w-bit digits of n. */
  function Digits(n: nat, w: nat, k: nat): (r: seq<nat>)
    ensures |r| == k
    decreases k
  {
    if k == 0 then [] else Digits(Quotient(n, Pow2(w)), w, k - 1) + [Remainder(n, Pow2(w))]
  }

  predicate Within(s: seq<nat>, w: nat) {
    forall i :: 0 <= i < |s| ==> s[i] < Pow2(w)
  }

  lemma {:induction false} DigitsWithin(n: nat, w: nat, k: nat)
    ensures Within(Digits(n, w, k), w)
    decreases k
  {
    hide Pow2, Quotient, Remainder;
    if k > 0 {
      DigitsWithin(Quotient(n, Pow2(w)), w, k - 1);
      RemainderBelow(n, Pow2(w));
    }
  }

  lemma RemainderBelow(n: nat, d: nat)
    requires d > 0
    ensures Remainder(n, d) < d && n == Quotient(n, d) * d + Remainder(n, d)
  {
    Divides(n, d);
  }

  lemma ValueMore(s: seq<nat>, w: nat, v: nat)
    ensures Value(s + [v], w) == Value(s, w) * Pow2(w) + v
  {
    assert (s + [v])[..|s|] == s;
  }

  lemma WidthMore(w: nat, n: nat)
    ensures w * (n + 1) == w * n + w && w * 0 == 0
  {}

  lemma {:induction false} ValueBound(s: seq<nat>, w: nat)
    requires Within(s, w)
    ensures Value(s, w) < Pow2(w * |s|)
  {
    if s == [] {
      WidthMore(w, 0);
    } else {
      hide Pow2;
      var n := |s| - 1;
      ValueBound(s[..n], w);
      WidthMore(w, n);
      Pow2Add(w * n, w);
      Below(Value(s[..n], w), s[n], Pow2(w), Pow2(w * n));
    }
  }

  /** Digits of a value are the digits it was read from. */
  lemma {:induction false} DigitsValue(s: seq<nat>, w: nat)
    requires Within(s, w)
    ensures Digits(Value(s, w), w, |s|) == s
  {
    hide Pow2;
    if s != [] {
      var n := |s| - 1;
      DivUnique(Value(s, w), Pow2(w), Value(s[..n], w), s[n]);
      DigitsValue(s[..n], w);
      assert s == s[..n] + [s[n]];
    }
  }

  lemma {:induction false} ValueDigits(n: nat, w: nat, k: nat)
    requires n < Pow2(w * k)
    ensures Value(Digits(n, w, k), w) == n
    decreases k
  {
    if k == 0 {
      WidthMore(w, 0);
    } else {
      hide Pow2, Quotient, Remainder, Value;
      WidthMore(w, k - 1);
      Pow2Add(w, w * (k - 1));
      QuotientLess(n, Pow2(w), Pow2(w * (k - 1)));
      ValueDigits(Quotient(n, Pow2(w)), w, k - 1);
      ValueMore(Digits(Quotient(n, Pow2(w)), w, k - 1), w, Remainder(n, Pow2(w)));
      RemainderBelow(n, Pow2(w));
    }
  }

  lemma QuotientLess(n: nat, x: nat, y: nat)
    requires x > 0 && n < x * y
    ensures Quotient(n, x) < y
  {
    QuotientBelow(n, x, y);
  }

  // -------------------------------------------------------------- regrouping

  /** Regrouping as arithmetic: with padding the number is shifted up to a whole digit,
      without it the left-over bits must be few and zero. */
  function Regrouped(data: seq<nat>, from: nat, to: nat, pad: bool): Option<seq<nat>>
    requires from > 0 && to > 0
  {
    if !Within(data, from) then None
    else
      var n, total := Value(data, from), |data| * from;
      var k, bits := total / to, total % to;
      if pad then
        if bits > 0 then Some(Digits(n * Pow2(to - bits), to, k + 1)) else Some(Digits(n, to, k))
      else if bits >= from || n % Pow2(bits) != 0 then None
      else Some(Digits(n / Pow2(bits), to, k))
  }

  /** State of the conversion loop: `acc` keeps the low bits of the number n read so far and
      `out` everything above the `bits` pending ones. */
  ghost predicate Pending(n: nat, from: nat, to: nat, acc: nat, bits: nat, out: seq<nat>) {
    && from > 0 && to > 0 && Within(out, to)
    && acc == n % Pow2(from + to - 1)
    && Value(out, to) == n / Pow2(bits)
  }

  /** `((acc << from) | v) & max_acc` */
  lemma AccNext(n: nat, from: nat, to: nat, acc: nat, bits: nat, out: seq<nat>, v: nat)
    requires Pending(n, from, to, acc, bits, out) && v < Pow2(from)
    ensures Pending(n * Pow2(from) + v, from, to, (acc * Pow2(from) + v) % Pow2(from + to - 1), bits + from, out)
  {
    hide Pow2, Value, Within;
    var n' := n * Pow2(from) + v;
    ModShift(n, Pow2(from + to - 1), Pow2(from), v);
    DivUnique(n', Pow2(from), n, v);
    Bits(n', from, bits);
  }

  /** `(acc >> bits) & max_v`, with at least one digit pending. */
  function TopDigit(acc: nat, bits: nat, to: nat): nat
    requires bits >= to
  {
    acc / Pow2(bits - to) % Pow2(to)
  }

  lemma DigitIs(n: nat, from: nat, to: nat, acc: nat, bits: nat)
    requires from > 0 && to > 0 && acc == n % Pow2(from + to - 1) && to <= bits <= from + to - 1
    ensures TopDigit(acc, bits, to) == n / Pow2(bits - to) % Pow2(to)
  {
    hide Pow2;
    var b := bits - to;
    Bits(n, b, from + to - 1 - b);
    Bits(n / Pow2(b), to, from - 1 - b);
  }

  /** One pass of the inner loop moves one digit out. */
  lemma PushNext(n: nat, from: nat, to: nat, acc: nat, bits: nat, out: seq<nat>)
    requires Pending(n, from, to, acc, bits, out) && to <= bits <= from + to - 1
    ensures Pending(n, from, to, acc, bits - to, out + [TopDigit(acc, bits, to)])
  {
    hide Pow2, Value, TopDigit;
    var b, digit := bits - to, TopDigit(acc, bits, to);
    DigitIs(n, from, to, acc, bits);
    ValueMore(out, to, digit);
    Bits(n, b, to);
    Divides(n / Pow2(b), Pow2(to));
  }

  method ConvertBits(data: seq<nat>, from: nat, to: nat, pad: bool) returns (r: Option<seq<nat>>)
    requires from > 0 && to > 0
    ensures r == Regrouped(data, from, to, pad)
  {
    hide Regrouped, Pending, Value, Pow2, TopDigit;
    var acc: nat, bits: nat := 0, 0;
    var out: seq<nat> := [];
    PendingStart(from, to);
    for i := 0 to |data|
      invariant bits < to && Pending(Value(data[..i], from), from, to, acc, bits, out)
      invariant |out| * to + bits == i * from && Within(data[..i], from)
    {
      if data[i] >= Pow2(from) {
        assert !Within(data, from);
        return OutOfRange(data, from, to, pad);
      }
      assert data[..i + 1] == data[..i] + [data[i]];
      ValueMore(data[..i], from, data[i]);
      AccNext(Value(data[..i], from), from, to, acc, bits, out, data[i]);
      acc := (acc * Pow2(from) + data[i]) % Pow2(from + to - 1);
      bits := bits + from;
      WidthMore(from, i);
      while bits >= to
        invariant bits <= from + to - 1 && Pending(Value(data[..i + 1], from), from, to, acc, bits, out)
        invariant |out| * to + bits == (i + 1) * from
        decreases bits
      {
        PushNext(Value(data[..i + 1], from), from, to, acc, bits, out);
        WidthMore(to, |out|);
        out := out + [TopDigit(acc, bits, to)];
        bits := bits - to;
      }
    }
    assert data[..|data|] == data;
    if pad {
      PadEnds(data, from, to, acc, bits, out);
      if bits > 0 {
        out := out + [acc * Pow2(to - bits) % Pow2(to)];
      }
      return Some(out);
    }
    NoPadEnds(data, from, to, acc, bits, out);
    if bits >= from || acc * Pow2(to - bits) % Pow2(to) != 0 {
      return None;
    }
    r := Some(out);
  }

  /** A digit that is too wide refuses the whole input. */
  function OutOfRange(data: seq<nat>, from: nat, to: nat, pad: bool): (r: Option<seq<nat>>)
    requires from > 0 && to > 0 && !Within(data, from)
    ensures r == Regrouped(data, from, to, pad)
  {
    None
  }

  lemma PendingStart(from: nat, to: nat)
    requires from > 0 && to > 0
    ensures Pending(Value([], from), from, to, 0, 0, []) && Within([], from)
  {
    assert Value([], from) == 0 && Value([], to) == 0;
    hide Pow2, Value;
    DivUnique(0, Pow2(from + to - 1), 0, 0);
    DivUnique(0, Pow2(0), 0, 0);
  }

  /** The pending bits, moved up to a whole digit. */
  lemma PendingBits(n: nat, from: nat, to: nat, acc: nat, bits: nat)
    requires from > 0 && bits < to && acc == n % Pow2(from + to - 1)
    ensures acc * Pow2(to - bits) % Pow2(to) == (n % Pow2(bits)) * Pow2(to - bits)
    ensures (n % Pow2(bits)) * Pow2(to - bits) < Pow2(to)
  {
    hide Pow2;
    var low, up := n % Pow2(bits), Pow2(to - bits);
    Bits(n, bits, from + to - 1 - bits);
    Pow2Add(bits, to - bits);
    Divides(acc, Pow2(bits));
    Divides(n, Pow2(bits));
    var q := acc / Pow2(bits);
    Split(q * Pow2(bits), low, up);
    Assoc(q, Pow2(bits), up);
    Below(low, 0, up, Pow2(bits));
    DivUnique(acc * up, Pow2(to), q, low * up);
  }

  lemma WholeDigits(len: nat, from: nat, to: nat, bits: nat, k: nat)
    requires to > 0 && bits < to && k * to + bits == len * from
    ensures len * from / to == k && len * from % to == bits
  {
    DivUnique(len * from, to, k, bits);
  }

  lemma PadEnds(data: seq<nat>, from: nat, to: nat, acc: nat, bits: nat, out: seq<nat>)
    requires Pending(Value(data, from), from, to, acc, bits, out) && bits < to && Within(data, from)
    requires |out| * to + bits == |data| * from
    ensures Regrouped(data, from, to, true)
         == Some(if bits > 0 then out + [acc * Pow2(to - bits) % Pow2(to)] else out)
  {
    hide Value, Pow2;
    var n := Value(data, from);
    WholeDigits(|data|, from, to, bits, |out|);
    if bits > 0 {
      PendingBits(n, from, to, acc, bits);
      PaddedValue(n, to, bits, out);
      var full := out + [(n % Pow2(bits)) * Pow2(to - bits)];
      assert Within(full, to);
      DigitsValue(full, to);
    } else {
      NoBits(n);
      DigitsValue(out, to);
    }
  }

  lemma NoBits(n: nat)
    ensures n / Pow2(0) == n && n % Pow2(0) == 0
  {}

  lemma PaddedValue(n: nat, to: nat, bits: nat, out: seq<nat>)
    requires bits < to && Value(out, to) == n / Pow2(bits)
    ensures Value(out + [(n % Pow2(bits)) * Pow2(to - bits)], to) == n * Pow2(to - bits)
  {
    hide Pow2, Value;
    var q, low, up := n / Pow2(bits), n % Pow2(bits), Pow2(to - bits);
    ValueMore(out, to, low * up);
    Pow2Add(bits, to - bits);
    Divides(n, Pow2(bits));
    Split(q * Pow2(bits), low, up);
    Assoc(q, Pow2(bits), up);
  }

  lemma NoPadEnds(data: seq<nat>, from: nat, to: nat, acc: nat, bits: nat, out: seq<nat>)
    requires Pending(Value(data, from), from, to, acc, bits, out) && bits < to && Within(data, from)
    requires |out| * to + bits == |data| * from
    ensures Regrouped(data, from, to, false)
         == if bits >= from || acc * Pow2(to - bits) % Pow2(to) != 0 then None else Some(out)
  {
    hide Value, Pow2;
    var n := Value(data, from);
    WholeDigits(|data|, from, to, bits, |out|);
    PendingBits(n, from, to, acc, bits);
    DigitsValue(out, to);
    ZeroProduct(n % Pow2(bits), Pow2(to - bits));
  }

  lemma ZeroProduct(a: nat, b: nat)
    requires b > 0
    ensures a * b == 0 <==> a == 0
  {}
}
