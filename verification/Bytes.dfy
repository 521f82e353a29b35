/** Byte strings: fixed-width integers in both byte orders, and parsers that consume a
    prefix and hand on the rest. */
module Bytes {
  type byte = n: int | 0 <= n < 256

  function Pow256(k: nat): (r: nat)
    ensures r > 0
  {
    if k == 0 then 1 else 256 * Pow256(k - 1)
  }

  /** `to_le_bytes` on k bytes; anything above is cut off as by an `as` cast. */
  function LE(n: nat, k: nat): (r: seq<byte>)
    ensures |r| == k
  {
    if k == 0 then [] else [n % 256] + LE(n / 256, k - 1)
  }

  function FromLE(s: seq<byte>): nat {
    if s == [] then 0 else s[0] + 256 * FromLE(s[1..])
  }

  /** A 32-byte digest read as a big-endian number. */
  function BE(n: nat, k: nat): (r: seq<byte>)
    ensures |r| == k
  {
    if k == 0 then [] else BE(n / 256, k - 1) + [n % 256]
  }

  function FromBE(s: seq<byte>): nat {
    if s == [] then 0 else 256 * FromBE(s[..|s| - 1]) + s[|s| - 1]
  }

  /** The value that survives k bytes is the value below 256^k. */
  lemma {:induction false} LERead(n: nat, k: nat)
    requires n < Pow256(k)
    ensures FromLE(LE(n, k)) == n
  {
    if k > 0 {
      LERead(n / 256, k - 1);
      assert LE(n, k)[1..] == LE(n / 256, k - 1);
    }
  }

  lemma {:induction false} BERead(n: nat, k: nat)
    requires n < Pow256(k)
    ensures FromBE(BE(n, k)) == n
  {
    if k > 0 {
      BERead(n / 256, k - 1);
      assert BE(n, k)[..k - 1] == BE(n / 256, k - 1);
    }
  }

  lemma {:induction false} FromLEBelow(s: seq<byte>)
    ensures FromLE(s) < Pow256(|s|)
  {
    if s != [] { FromLEBelow(s[1..]); }
  }

  lemma {:induction false} FromBEBelow(s: seq<byte>)
    ensures FromBE(s) < Pow256(|s|)
  {
    if s != [] { FromBEBelow(s[..|s| - 1]); }
  }

  lemma {:induction false} FromBEInjective(s: seq<byte>, t: seq<byte>)
    requires |s| == |t| && FromBE(s) == FromBE(t)
    ensures s == t
  {
    if s != [] {
      FromBEInjective(s[..|s| - 1], t[..|t| - 1]);
      assert s == s[..|s| - 1] + [s[|s| - 1]] && t == t[..|t| - 1] + [t[|t| - 1]];
    }
  }

  /** Writing back what was read. */
  lemma {:induction false} LEWrites(s: seq<byte>)
    ensures LE(FromLE(s), |s|) == s
  {
    if s != [] {
      LEWrites(s[1..]);
      assert FromLE(s) % 256 == s[0] && FromLE(s) / 256 == FromLE(s[1..]);
    }
  }

  lemma {:induction false} BEWrites(s: seq<byte>)
    ensures BE(FromBE(s), |s|) == s
  {
    if s != [] {
      var p, last := s[..|s| - 1], s[|s| - 1];
      BEWrites(p);
      assert FromBE(s) % 256 == last && FromBE(s) / 256 == FromBE(p);
      assert s == p + [last];
    }
  }

  lemma Widths()
    ensures Pow256(4) == 0x1_0000_0000 && Pow256(8) == 0x1_0000_0000_0000_0000
  {
    assert Pow256(1) == 256 && Pow256(2) == 0x1_0000 && Pow256(3) == 0x100_0000;
    assert Pow256(5) == 0x100_0000_0000 && Pow256(6) == 0x1_0000_0000_0000 && Pow256(7) == 0x100_0000_0000_0000;
  }

  datatype ParseError = InvalidEncoding | ObsoleteScheme | Corrupt(what: string)

  /** A value and the bytes after it, or a refusal. */
  datatype Parsed<+T> = Got(value: T, rest: seq<byte>) | Refused(error: ParseError)
  {
    predicate IsFailure() { Refused? }

    function PropagateFailure<U>(): Parsed<U>
      requires Refused?
    {
      Refused(error)
    }

    function Extract(): (T, seq<byte>)
      requires Got?
    {
      (value, rest)
    }
  }

  /** A k-byte little-endian integer. */
  function TakeLE(b: seq<byte>, k: nat, e: ParseError): Parsed<nat> {
    if |b| < k then Refused(e) else Got(FromLE(b[..k]), b[k..])
  }

  function TakeBE(b: seq<byte>, k: nat, e: ParseError): Parsed<nat> {
    if |b| < k then Refused(e) else Got(FromBE(b[..k]), b[k..])
  }

  /** Reading back what was written in front of anything. */
  lemma TakesLE(n: nat, k: nat, rest: seq<byte>, e: ParseError)
    requires n < Pow256(k)
    ensures TakeLE(LE(n, k) + rest, k, e) == Got(n, rest)
  {
    LERead(n, k);
    assert (LE(n, k) + rest)[..k] == LE(n, k) && (LE(n, k) + rest)[k..] == rest;
  }

  lemma TakesBE(n: nat, k: nat, rest: seq<byte>, e: ParseError)
    requires n < Pow256(k)
    ensures TakeBE(BE(n, k) + rest, k, e) == Got(n, rest)
  {
    BERead(n, k);
    assert (BE(n, k) + rest)[..k] == BE(n, k) && (BE(n, k) + rest)[k..] == rest;
  }

  /** What was read is what stands there. */
  lemma TakenLE(b: seq<byte>, k: nat, e: ParseError)
    requires TakeLE(b, k, e).Got?
    ensures var r := TakeLE(b, k, e); r.value < Pow256(k) && b == LE(r.value, k) + r.rest
  {
    FromLEBelow(b[..k]);
    LEWrites(b[..k]);
  }
}
