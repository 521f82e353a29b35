/** `kron1…` addresses (src/kron/bech32.rs), after BIP-173 ("Bech32").  Text is a sequence
    of Unicode characters; lengths count UTF-8 bytes where the source counts bytes. */
module Bech32 {
  import opened Basics
  import opened Bytes
  import opened Arithmetic
  import opened Regroup
  import opened Checksum
  import Generator

  const CHARSET: string := "qpzry9x8gf2tvdw0s3jn54khce6mua7l"
  const HRP: string := "kron"
  const HRP_BYTES: seq<byte> := [0x6B, 0x72, 0x6F, 0x6E]

  datatype Bech32Error =
    | Empty | MixedCase | MissingSeparator | InvalidHrp
    | InvalidCharset | InvalidChecksum | InvalidPadding | InvalidPayloadLength

  datatype Decoded = Payload(bytes: seq<byte>) | Invalid(error: Bech32Error)

  // ------------------------------------------------------------------- text

  /** `char::is_whitespace` */
  predicate IsWhitespace(c: char) {
    || '\U{0009}' <= c <= '\U{000D}' || c == '\U{0020}' || c == '\U{0085}' || c == '\U{00A0}' || c == '\U{1680}'
    || '\U{2000}' <= c <= '\U{200A}' || c == '\U{2028}' || c == '\U{2029}' || c == '\U{202F}' || c == '\U{205F}'
    || c == '\U{3000}'
  }

  /** Whitespace, soft hyphens, zero-width and bidirectional marks. */
  predicate Ignorable(c: char) {
    || IsWhitespace(c)
    || c == '\U{00AD}' || '\U{200B}' <= c <= '\U{200F}' || c == '\U{2060}' || c == '\U{FEFF}'
    || '\U{202A}' <= c <= '\U{202E}' || '\U{2066}' <= c <= '\U{2069}'
  }

  function Normalize(s: string): string {
    if s == "" then ""
    else
      var p, c := Normalize(s[..|s| - 1]), s[|s| - 1];
      if Ignorable(c) then p else p + [c]
  }

  predicate IsLower(c: char) { 'a' <= c <= 'z' }

  predicate IsUpper(c: char) { 'A' <= c <= 'Z' }

  function LowerChar(c: char): char {
    if IsUpper(c) then (c as int + 32) as char else c
  }

  function Lower(s: string): (r: string)
    ensures |r| == |s| && forall i :: 0 <= i < |s| ==> r[i] == LowerChar(s[i])
  {
    seq(|s|, i requires 0 <= i < |s| => LowerChar(s[i]))
  }

  predicate Mixed(s: string) {
    (exists i :: 0 <= i < |s| && IsLower(s[i])) && (exists i :: 0 <= i < |s| && IsUpper(s[i]))
  }

  /** UTF-8 length of a character. */
  function Width(c: char): nat {
    if c < '\U{0080}' then 1 else if c < '\U{0800}' then 2 else if c < '\U{10000}' then 3 else 4
  }

  function Len(s: string): nat {
    if s == "" then 0 else Len(s[..|s| - 1]) + Width(s[|s| - 1])
  }

  /** `rfind('1')` */
  function LastOne(s: string): Option<nat> {
    if s == "" then None
    else if s[|s| - 1] == '1' then Some(|s| - 1)
    else LastOne(s[..|s| - 1])
  }

  // ---------------------------------------------------------------- charset

  /** Position in the character set, from k on. */
  function Find(c: char, k: nat): (r: Option<Symbol>)
    requires k <= |CHARSET|
    ensures r.Some? ==> k <= r.value && CHARSET[r.value] == c
    ensures r == None ==> forall j :: k <= j < |CHARSET| ==> CHARSET[j] != c
    decreases |CHARSET| - k
  {
    if k == |CHARSET| then None else if CHARSET[k] == c then Some(k) else Find(c, k + 1)
  }

  function Index(c: char): Option<Symbol> { Find(c, 0) }

  /** The symbols of a data part, or None when some character is no symbol. */
  function Symbols(s: string): (r: Option<seq<Symbol>>)
    ensures r.Some? ==> |r.value| == |s|
  {
    if s == "" then Some([])
    else
      var p, v := Symbols(s[..|s| - 1]), Index(s[|s| - 1]);
      if p == None || v == None then None else Some(p.value + [v.value])
  }

  function Chars(data: seq<Symbol>): (r: string)
    ensures |r| == |data| && forall i :: 0 <= i < |data| ==> r[i] == CHARSET[data[i]]
  {
    seq(|data|, i requires 0 <= i < |data| => CHARSET[data[i]])
  }

  /** Each character of the set with its value. */
  function Code(c: char): nat {
    match c
    case 'q' => 0 case 'p' => 1 case 'z' => 2 case 'r' => 3 case 'y' => 4 case '9' => 5 case 'x' => 6 case '8' => 7
    case 'g' => 8 case 'f' => 9 case '2' => 10 case 't' => 11
    case 'v' => 12 case 'd' => 13 case 'w' => 14 case '0' => 15
    case 's' => 16 case '3' => 17 case 'j' => 18 case 'n' => 19
    case '5' => 20 case '4' => 21 case 'k' => 22 case 'h' => 23
    case 'c' => 24 case 'e' => 25 case '6' => 26 case 'm' => 27
    case 'u' => 28 case 'a' => 29 case '7' => 30 case 'l' => 31
    case _ => 32
  }

  lemma CodeAt0(v: Symbol)
    requires 0 <= v < 8
    ensures Code(CHARSET[v]) == v
  {
    assert Code(CHARSET[0]) == 0 && Code(CHARSET[1]) == 1 && Code(CHARSET[2]) == 2 && Code(CHARSET[3]) == 3;
    assert Code(CHARSET[4]) == 4 && Code(CHARSET[5]) == 5 && Code(CHARSET[6]) == 6 && Code(CHARSET[7]) == 7;
  }

  lemma CodeAt8(v: Symbol)
    requires 8 <= v < 16
    ensures Code(CHARSET[v]) == v
  {
    assert Code(CHARSET[8]) == 8 && Code(CHARSET[9]) == 9 && Code(CHARSET[10]) == 10 && Code(CHARSET[11]) == 11;
    assert Code(CHARSET[12]) == 12 && Code(CHARSET[13]) == 13 && Code(CHARSET[14]) == 14 && Code(CHARSET[15]) == 15;
  }

  lemma CodeAt16(v: Symbol)
    requires 16 <= v < 24
    ensures Code(CHARSET[v]) == v
  {
    assert Code(CHARSET[16]) == 16 && Code(CHARSET[17]) == 17 && Code(CHARSET[18]) == 18 && Code(CHARSET[19]) == 19;
    assert Code(CHARSET[20]) == 20 && Code(CHARSET[21]) == 21 && Code(CHARSET[22]) == 22 && Code(CHARSET[23]) == 23;
  }

  lemma CodeAt24(v: Symbol)
    requires 24 <= v < 32
    ensures Code(CHARSET[v]) == v
  {
    assert Code(CHARSET[24]) == 24 && Code(CHARSET[25]) == 25 && Code(CHARSET[26]) == 26 && Code(CHARSET[27]) == 27;
    assert Code(CHARSET[28]) == 28 && Code(CHARSET[29]) == 29 && Code(CHARSET[30]) == 30 && Code(CHARSET[31]) == 31;
  }

  lemma CodeAt(v: Symbol)
    ensures Code(CHARSET[v]) == v
  {
    hide Code;
    if v < 8 { CodeAt0(v); } else if v < 16 { CodeAt8(v); } else if v < 24 { CodeAt16(v); } else { CodeAt24(v); }
  }

  /** Printable, lower-case or digit, and never the separator. */
  predicate Plain(c: char) {
    (IsLower(c) || '0' <= c <= '9') && c != '1'
  }

  lemma CodePlain(c: char)
    requires Code(c) < 32
    ensures Plain(c)
  {}

  /** Symbols and their characters correspond one to one. */
  lemma IndexOf(v: Symbol)
    ensures Index(CHARSET[v]) == Some(v) && Plain(CHARSET[v])
  {
    hide Code, Plain;
    CodeAt(v);
    CodePlain(CHARSET[v]);
    var r := Index(CHARSET[v]);
    assert r.Some?;
    CodeAt(r.value);
  }

  lemma {:induction false} SymbolsOf(data: seq<Symbol>)
    ensures Symbols(Chars(data)) == Some(data)
  {
    hide Index;
    if data != [] {
      var n := |data| - 1;
      SymbolsOf(data[..n]);
      IndexOf(data[n]);
      assert Chars(data)[..n] == Chars(data[..n]);
      assert data == data[..n] + [data[n]];
    }
  }

  lemma {:induction false} CharsOf(s: string)
    requires Symbols(s).Some?
    ensures Chars(Symbols(s).value) == s
  {
    if s != "" {
      var n := |s| - 1;
      CharsOf(s[..n]);
      var p, v := Symbols(s[..n]).value, Index(s[n]).value;
      assert Chars(p + [v]) == Chars(p) + [CHARSET[v]];
      assert s == s[..n] + [s[n]];
    }
  }

  // ---------------------------------------------------------- encode, decode

  lemma FiveBits()
    ensures Pow2(4) == 16 && Pow2(5) == 32 && Pow2(8) == 256
  {
    assert Pow2(1) == 2 && Pow2(2) == 4 && Pow2(3) == 8 && Pow2(6) == 64 && Pow2(7) == 128;
  }

  function AsSymbols(s: seq<nat>): (r: seq<Symbol>)
    requires Within(s, 5)
    ensures r == s
  {
    FiveBits();
    s
  }

  function AsBytes(s: seq<nat>): (r: seq<byte>)
    requires Within(s, 8)
    ensures r == s
  {
    FiveBits();
    s
  }

  /** The five-bit groups of a payload. */
  function Groups(payload: seq<byte>): seq<Symbol> {
    RegroupsBytes(payload);
    AsSymbols(Regrouped(payload, 8, 5, true).value)
  }

  lemma RegroupsBytes(payload: seq<byte>)
    ensures Regrouped(payload, 8, 5, true).Some? && Within(Regrouped(payload, 8, 5, true).value, 5)
  {
    FiveBits();
    hide Pow2, Value, Digits;
    assert Within(payload, 8);
    var n, k, bits := Value(payload, 8), |payload| * 8 / 5, |payload| * 8 % 5;
    DigitsWithin(n, 5, k);
    if bits > 0 { DigitsWithin(n * Pow2(5 - bits), 5, k + 1); }
  }

  function Encode(payload: seq<byte>): string {
    var data := Groups(payload);
    HRP + "1" + Chars(data + CreateChecksum(HRP_BYTES, data))
  }

  lemma {:induction false} SymbolsWidth(s: string)
    requires Symbols(s).Some?
    ensures Len(s) == |s|
  {
    hide Index;
    if s != "" {
      var n := |s| - 1;
      SymbolsWidth(s[..n]);
      var v := Index(s[n]).value;
      IndexWidth(s[n]);
    }
  }

  lemma IndexWidth(c: char)
    requires Index(c).Some?
    ensures Width(c) == 1 && Plain(c)
  {
    IndexOf(Index(c).value);
  }

  /** The checks on the data part. */
  function DecodeData(s: string): Decoded {
    if Len(s) < 6 then Invalid(InvalidChecksum)
    else
      var symbols := Symbols(s);
      if symbols == None then Invalid(InvalidCharset)
      else if !VerifyChecksum(HRP_BYTES, symbols.value) then Invalid(InvalidChecksum)
      else
        SymbolsWidth(s);
        DecodeGroups(symbols.value[..|symbols.value| - 6])
  }

  function DecodeGroups(groups: seq<Symbol>): Decoded {
    var bytes := Regrouped(groups, 5, 8, false);
    if bytes == None then Invalid(InvalidPadding)
    else if |bytes.value| != 32 then Invalid(InvalidPayloadLength)
    else
      GroupsToBytes(groups);
      Payload(AsBytes(bytes.value))
  }

  lemma GroupsToBytes(groups: seq<Symbol>)
    ensures Regrouped(groups, 5, 8, false).Some? ==> Within(Regrouped(groups, 5, 8, false).value, 8)
  {
    hide Pow2, Value, Digits;
    var n, k, bits := Value(groups, 5), |groups| * 5 / 8, |groups| * 5 % 8;
    DigitsWithin(Quotient(n, Pow2(bits)), 8, k);
  }

  function Decode(s: string): Decoded {
    var t := Normalize(s);
    if t == "" then Invalid(Empty)
    else if Mixed(t) then Invalid(MixedCase)
    else DecodeLower(Lower(t))
  }

  function DecodeLower(l: string): Decoded {
    if Len(l) > 90 then Invalid(InvalidChecksum)
    else
      var sep := LastOne(l);
      if sep == None then Invalid(MissingSeparator)
      else if sep.value == 0 then Invalid(InvalidHrp)
      else
        LastOneAt(l);
        if l[..sep.value] != HRP then Invalid(InvalidHrp) else DecodeData(l[sep.value + 1..])
  }

  lemma {:induction false} LastOneAt(s: string)
    ensures LastOne(s).Some? ==> LastOne(s).value < |s| && s[LastOne(s).value] == '1'
  {
    if s != "" { LastOneAt(s[..|s| - 1]); }
  }

  // ------------------------------------------------------- regrouping a payload

  lemma BytesWithin(p: seq<byte>)
    ensures Within(p, 8)
  {
    FiveBits();
  }

  lemma SymbolsWithin(d: seq<Symbol>)
    ensures Within(d, 5)
  {
    FiveBits();
  }

  lemma PaddedGroups(p: seq<byte>)
    requires |p| == 32
    ensures Groups(p) == Digits(Value(p, 8) * Pow2(4), 5, 52)
  {
    BytesWithin(p);
    hide Pow2, Value, Digits, Within;
  }

  lemma Unpadded(d: seq<Symbol>, n: nat)
    requires |d| == 52 && Value(d, 5) == n * Pow2(4)
    ensures Regrouped(d, 5, 8, false) == Some(Digits(n, 8, 32))
  {
    SymbolsWithin(d);
    hide Pow2, Value, Digits, Within;
    DivUnique(n * Pow2(4), Pow2(4), n, 0);
  }

  /** 32 bytes are 52 groups, and those groups are those 32 bytes. */
  lemma PayloadRegroups(p: seq<byte>)
    requires |p| == 32
    ensures |Groups(p)| == 52 && Regrouped(Groups(p), 5, 8, false) == Some(p)
  {
    hide Pow2, Value, Digits, Groups, Regrouped, Within;
    var n := Value(p, 8);
    BytesWithin(p);
    ValueBound(p, 8);
    DigitsValue(p, 8);
    PaddedGroups(p);
    Pow2Add(256, 4);
    Below(n, 0, Pow2(4), Pow2(256));
    ValueDigits(n * Pow2(4), 5, 52);
    Unpadded(Groups(p), n);
  }

  /** Groups that decode to 32 bytes are the groups of those bytes. */
  lemma GroupsRegroup(d: seq<Symbol>)
    requires Regrouped(d, 5, 8, false).Some? && |Regrouped(d, 5, 8, false).value| == 32
    ensures Within(Regrouped(d, 5, 8, false).value, 8) && Groups(AsBytes(Regrouped(d, 5, 8, false).value)) == d
  {
    hide Pow2, Value, Digits, Groups, Regrouped, Within, AsBytes;
    GroupsToBytes(d);
    var m := Value(d, 5);
    SymbolsWithin(d);
    ValueBound(d, 5);
    DigitsValue(d, 5);
    FiftyTwo(d);
    Divides(m, Pow2(4));
    Pow2Add(4, 256);
    QuotientBelow(m, Pow2(4), Pow2(256));
    ValueDigits(m / Pow2(4), 8, 32);
    PaddedGroups(AsBytes(Regrouped(d, 5, 8, false).value));
  }

  lemma FiftyTwo(d: seq<Symbol>)
    requires Regrouped(d, 5, 8, false).Some? && |Regrouped(d, 5, 8, false).value| == 32
    ensures |d| == 52 && Value(d, 5) % Pow2(4) == 0
    ensures Regrouped(d, 5, 8, false).value == Digits(Value(d, 5) / Pow2(4), 8, 32)
  {
    hide Pow2, Value, Digits;
    var total := |d| * 5;
    assert total / 8 == 32 && total % 8 < 5;
    assert 256 <= total <= 260;
  }

  // ----------------------------------------------------------------- the text

  lemma {:induction false} PlainWidth(s: string)
    requires forall i :: 0 <= i < |s| ==> Plain(s[i])
    ensures Len(s) == |s| && LastOne(s) == None
  {
    if s != "" { PlainWidth(s[..|s| - 1]); }
  }

  lemma CharsPlain(data: seq<Symbol>)
    ensures forall i :: 0 <= i < |Chars(data)| ==> Plain(Chars(data)[i])
  {
    hide Plain;
    forall i | 0 <= i < |data| ensures Plain(Chars(data)[i]) { IndexOf(data[i]); }
  }

  lemma {:induction false} LenAppend(a: string, b: string)
    ensures Len(a + b) == Len(a) + Len(b)
  {
    if b == "" {
      assert a + b == a;
    } else {
      assert (a + b)[..|a + b| - 1] == a + b[..|b| - 1];
      LenAppend(a, b[..|b| - 1]);
    }
  }

  lemma {:induction false} LastOneAppend(a: string, b: string)
    requires LastOne(b) == None
    ensures LastOne(a + b) == LastOne(a)
  {
    if b == "" {
      assert a + b == a;
    } else {
      assert (a + b)[..|a + b| - 1] == a + b[..|b| - 1];
      LastOneAppend(a, b[..|b| - 1]);
    }
  }

  lemma Prefix()
    ensures Len(HRP + "1") == 5 && LastOne(HRP + "1") == Some(4)
  {
    var s := HRP + "1";
    assert Len(s[..0]) == 0 && Len(s[..1]) == 1 by { assert s[..1][..0] == s[..0]; }
    assert Len(s[..2]) == 2 by { assert s[..2][..1] == s[..1]; }
    assert Len(s[..3]) == 3 by { assert s[..3][..2] == s[..2]; }
    assert Len(s[..4]) == 4 by { assert s[..4][..3] == s[..3]; }
    assert s[..5] == s && s[..5][..4] == s[..4];
  }

  /** A lower-case text with the right prefix and a plain data part is judged by that part. */
  lemma DecodesByData(dp: string)
    requires (forall i :: 0 <= i < |dp| ==> Plain(dp[i])) && |dp| <= 85
    ensures DecodeLower(HRP + "1" + dp) == DecodeData(dp)
  {
    hide Plain, DecodeData;
    var l := HRP + "1" + dp;
    PlainWidth(dp);
    Prefix();
    LenAppend(HRP + "1", dp);
    LastOneAppend(HRP + "1", dp);
    assert l[..4] == HRP && l[5..] == dp;
  }

  /** A data part of at least six symbols decodes as its symbols say. */
  lemma DataOf(data: seq<Symbol>)
    requires |data| >= 6
    ensures DecodeData(Chars(data))
         == if VerifyChecksum(HRP_BYTES, data) then DecodeGroups(data[..|data| - 6]) else Invalid(InvalidChecksum)
  {
    hide VerifyChecksum, DecodeGroups, Index;
    SymbolsOf(data);
    SymbolsWidth(Chars(data));
  }

  lemma EncodedData(p: seq<byte>)
    requires |p| == 32
    ensures var data := Groups(p) + CreateChecksum(HRP_BYTES, Groups(p));
      Encode(p) == HRP + "1" + Chars(data) && |data| == 58 && |Encode(p)| == 63
  {
    hide Groups, CreateChecksum;
    PayloadRegroups(p);
  }

  /** What an encoded address decodes to, text handling aside. */
  lemma LowerRoundTrip(p: seq<byte>)
    requires |p| == 32
    ensures DecodeLower(Encode(p)) == Payload(p)
  {
    hide Groups, CreateChecksum, VerifyChecksum, Regrouped, DecodeData, DecodeLower, Encode;
    var d := Groups(p);
    var c := CreateChecksum(HRP_BYTES, d);
    EncodedData(p);
    CharsPlain(d + c);
    DecodesByData(Chars(d + c));
    DataOf(d + c);
    ChecksumUnique(HRP_BYTES, d, c);
    assert (d + c)[..52] == d;
    PayloadRegroups(p);
  }

  /** A lower-case text that decodes is the address it decodes to. */
  lemma LowerDecodes(l: string)
    requires DecodeLower(l).Payload?
    ensures |DecodeLower(l).bytes| == 32 && Encode(DecodeLower(l).bytes) == l
  {
    hide VerifyChecksum, Regrouped, Groups, CreateChecksum, Index;
    LastOneAt(l);
    var dp := l[5..];
    assert l[..4] == HRP && l[4] == '1';
    assert l == HRP + "1" + dp;
    CharsOf(dp);
    SymbolsWidth(dp);
    var data := Symbols(dp).value;
    SplitData(data);
    var d, c := data[..|data| - 6], data[|data| - 6..];
    GroupsRegroup(d);
    assert DecodeLower(l).bytes == AsBytes(Regrouped(d, 5, 8, false).value);
  }

  lemma SplitData(data: seq<Symbol>)
    requires |data| >= 6 && VerifyChecksum(HRP_BYTES, data)
    ensures data == data[..|data| - 6] + CreateChecksum(HRP_BYTES, data[..|data| - 6])
  {
    hide VerifyChecksum, CreateChecksum;
    var d, c := data[..|data| - 6], data[|data| - 6..];
    assert data == d + c;
    ChecksumUnique(HRP_BYTES, d, c);
  }

  /** The symbols of an address: 52 groups that spell the payload's number followed by four zero
      bits, then six that make the polynomial of expanded prefix and data 1 modulo the generator
      of BIP-173. */
  ghost predicate AddressSymbols(p: seq<byte>, data: seq<Symbol>) {
    && |data| == 58 && Value(data[..52], 5) == Value(p, 8) * 16
    && exists q :: Generator.Leaves(Generator.PolyOf([3, 3, 3, 3, 0, 11, 18, 15, 14] + data), q, [0, 0, 0, 0, 0, 1])
  }

  lemma SymbolsVerify(p: seq<byte>, data: seq<Symbol>)
    requires |p| == 32
    ensures AddressSymbols(p, data) <==> data == Groups(p) + CreateChecksum(HRP_BYTES, Groups(p))
  {
    hide Generator.Leaves, Generator.PolyOf, VerifyChecksum, CreateChecksum, Groups, HrpExpand, Value, Digits;
    KronExpands();
    PayloadRegroups(p);
    PaddedGroups(p);
    FiveBits();
    SymbolsWithin(Groups(p));
    ValueOfGroups(p);
    if |data| == 58 {
      assert data == data[..52] + data[52..];
      Generator.VerifiesExactly(HRP_BYTES, data);
      SymbolsWithin(data[..52]);
      DigitsValue(data[..52], 5);
      ChecksumUnique(HRP_BYTES, data[..52], data[52..]);
    }
  }

  lemma ValueOfGroups(p: seq<byte>)
    requires |p| == 32
    ensures Value(Groups(p), 5) == Value(p, 8) * 16
  {
    hide Value, Digits, Groups, Within;
    BytesWithin(p);
    ValueBound(p, 8);
    PaddedGroups(p);
    FiveBits();
    hide Pow2;
    Pow2Add(256, 4);
    Below(Value(p, 8), 0, Pow2(4), Pow2(256));
    ValueDigits(Value(p, 8) * Pow2(4), 5, 52);
  }

  /** "kron1", then one character of the set per symbol. */
  ghost predicate Printed(text: string, data: seq<Symbol>) {
    && |text| == 5 + |data| && text[..5] == "kron1"
    && forall i :: 0 <= i < |data| ==> text[5 + i] == "qpzry9x8gf2tvdw0s3jn54khce6mua7l"[data[i]]
  }

  lemma PrintedIs(text: string, data: seq<Symbol>)
    ensures Printed(text, data) <==> text == "kron1" + Chars(data)
  {
    assert CHARSET == "qpzry9x8gf2tvdw0s3jn54khce6mua7l";
    if Printed(text, data) { assert text == text[..5] + text[5..] && text[5..] == Chars(data); }
  }

  /** A text is the address of a payload if and only if it prints symbols that spell the payload
      and satisfy the checksum equation. */
  lemma AddressExact(p: seq<byte>, text: string)
    requires |p| == 32
    ensures text == Encode(p) <==> exists data :: AddressSymbols(p, data) && Printed(text, data)
  {
    hide AddressSymbols, Groups, CreateChecksum, Encode, Chars, Printed;
    var all := Groups(p) + CreateChecksum(HRP_BYTES, Groups(p));
    EncodedData(p);
    SymbolsVerify(p, all);
    PrintedIs(text, all);
    forall data | AddressSymbols(p, data) && Printed(text, data) ensures text == Encode(p) {
      SymbolsVerify(p, data);
    }
  }

  /** Exactly the spellings of an address are accepted: a text decodes to `p` if and only if
      it is, ignorable characters dropped and not in mixed case, the encoding of `p`. */
  lemma DecodesExactly(s: string, p: seq<byte>)
    ensures Decode(s) == Payload(p) <==> |p| == 32 && Lower(Normalize(s)) == Encode(p) && !Mixed(Normalize(s))
  {
    hide DecodeLower, Encode, Mixed, Normalize;
    var t := Normalize(s);
    if Decode(s) == Payload(p) { LowerDecodes(Lower(t)); }
    if |p| == 32 && Lower(t) == Encode(p) && !Mixed(t) {
      LowerRoundTrip(p);
      EncodedData(p);
    }
  }

  // ------------------------------------------------------------- refusals

  lemma {:induction false} EmptyExact(s: string)
    ensures Normalize(s) == "" <==> forall i :: 0 <= i < |s| ==> Ignorable(s[i])
  {
    hide Ignorable;
    if s != "" { EmptyExact(s[..|s| - 1]); }
  }

  lemma {:induction false} LastOneExact(s: string)
    ensures LastOne(s) == None <==> '1' !in s
    ensures LastOne(s).Some? ==> var k := LastOne(s).value; k < |s| && s[k] == '1' && '1' !in s[k + 1..]
  {
    if s != "" {
      LastOneExact(s[..|s| - 1]);
      assert s == s[..|s| - 1] + [s[|s| - 1]];
      if s[|s| - 1] != '1' && LastOne(s).Some? {
        assert s[LastOne(s).value + 1..] == s[..|s| - 1][LastOne(s).value + 1..] + [s[|s| - 1]];
      }
    }
  }

  /** The text after dropping ignorable characters and lower-casing. */
  function Plainly(s: string): string { Lower(Normalize(s)) }

  /** The errors that need no look behind the separator: nothing left, mixed case, more than 90
      bytes, no separator. */
  lemma RefusedEarly(s: string)
    ensures Decode(s) == Invalid(Empty) <==> forall i :: 0 <= i < |s| ==> Ignorable(s[i])
    ensures Decode(s) == Invalid(MixedCase) <==> Mixed(Normalize(s))
    ensures Decode(s) == Invalid(MissingSeparator) <==>
      Normalize(s) != "" && !Mixed(Normalize(s)) && Len(Plainly(s)) <= 90 && '1' !in Plainly(s)
    ensures Normalize(s) != "" && !Mixed(Normalize(s)) && Len(Plainly(s)) > 90 ==> Decode(s) == Invalid(InvalidChecksum)
  {
    EmptyExact(s);
    LastOneExact(Plainly(s));
    NotEarly(Plainly(s));
    hide DecodeLower, Ignorable, Normalize, LastOne;
  }

  lemma NotEarly(l: string)
    ensures DecodeLower(l) != Invalid(Empty) && DecodeLower(l) != Invalid(MixedCase)
    ensures DecodeLower(l) == Invalid(MissingSeparator) <==> Len(l) <= 90 && LastOne(l) == None
    ensures Len(l) > 90 ==> DecodeLower(l) == Invalid(InvalidChecksum)
  {
    hide Index, Symbols, Polymod, HrpExpand, Regrouped, Len, LastOne;
  }

  /** The text is unmixed, at most 90 bytes long, and `prefix`, the last '1' and `data`. */
  ghost predicate Parted(s: string, prefix: string, data: string) {
    && Normalize(s) != "" && !Mixed(Normalize(s)) && Len(Plainly(s)) <= 90
    && Plainly(s) == prefix + "1" + data && '1' !in data
  }

  ghost predicate InCharset(data: string) {
    forall i :: 0 <= i < |data| ==> data[i] in "qpzry9x8gf2tvdw0s3jn54khce6mua7l"
  }

  /** The verdict on symbols: the checksum, then the groups in front of it. */
  ghost predicate JudgedBy(r: Decoded, v: seq<Symbol>) {
    |v| >= 6 && r == if !VerifyChecksum(HRP_BYTES, v) then Invalid(InvalidChecksum) else DecodeGroups(v[..|v| - 6])
  }

  /** The data part behind "kron1": too short, a strange character, a checksum equation that does
      not hold, or left-over bits and a length that no 32 bytes have. */
  lemma RefusedData(s: string, prefix: string, data: string)
    requires Parted(s, prefix, data)
    ensures prefix != "kron" <==> Decode(s) == Invalid(InvalidHrp)
    ensures prefix == "kron" && Len(data) < 6 ==> Decode(s) == Invalid(InvalidChecksum)
    ensures prefix == "kron" && Len(data) >= 6 && !InCharset(data) <==> Decode(s) == Invalid(InvalidCharset)
    ensures prefix == "kron" && Len(data) >= 6 && InCharset(data) ==>
      exists v :: Chars(v) == data && JudgedBy(Decode(s), v)
  {
    var l := Plainly(s);
    PartedLower(l, prefix, data);
    SymbolsExact(data);
    hide Parted, InCharset, DecodeLower, VerifyChecksum, DecodeGroups, Symbols, Normalize, Mixed, Len;
    if prefix == "kron" { DataDecides(data); }
    assert Decode(s) == DecodeLower(l) by { PartedDecodes(s, prefix, data); }
    if prefix == "kron" && Len(data) >= 6 && InCharset(data) {
      var v := Symbols(data).value;
      CharsOf(data);
    }
  }

  lemma PartedDecodes(s: string, prefix: string, data: string)
    requires Parted(s, prefix, data)
    ensures Decode(s) == DecodeLower(Plainly(s)) && Len(Plainly(s)) <= 90
  {}

  lemma PartedLower(l: string, prefix: string, data: string)
    requires l == prefix + "1" + data && '1' !in data && Len(l) <= 90
    ensures DecodeLower(l) == if prefix != "kron" then Invalid(InvalidHrp) else DecodeData(data)
  {
    hide DecodeData, Len;
    LastOneExact(data);
    LastOneAppend(prefix + "1", data);
    assert LastOne(prefix + "1") == Some(|prefix|) by { assert (prefix + "1")[|prefix|] == '1'; }
    assert l[..|prefix|] == prefix && l[|prefix| + 1..] == data;
  }

  lemma {:induction false} SymbolsExact(s: string)
    ensures Symbols(s).Some? <==> InCharset(s)
  {
    if s != "" {
      var n := |s| - 1;
      SymbolsExact(s[..n]);
      assert s == s[..n] + [s[n]];
      IndexExact(s[n]);
      hide Index;
    }
  }

  lemma IndexExact(c: char)
    ensures Index(c).Some? <==> c in "qpzry9x8gf2tvdw0s3jn54khce6mua7l"
  {
    assert CHARSET == "qpzry9x8gf2tvdw0s3jn54khce6mua7l";
    hide Find;
    if Index(c).Some? { assert CHARSET[Index(c).value] == c; }
  }

  lemma DataDecides(data: string)
    ensures var r := DecodeData(data);
      && (Len(data) < 6 ==> r == Invalid(InvalidChecksum))
      && (Len(data) >= 6 ==>
            if Symbols(data) == None then r == Invalid(InvalidCharset)
            else |data| >= 6 && r == if !VerifyChecksum(HRP_BYTES, Symbols(data).value) then Invalid(InvalidChecksum)
                                     else DecodeGroups(Symbols(data).value[..|data| - 6]))
      && r != Invalid(InvalidHrp) && (r == Invalid(InvalidCharset) ==> Len(data) >= 6 && Symbols(data) == None)
  {
    hide Symbols, Polymod, HrpExpand, Regrouped, Len;
    if Symbols(data).Some? { SymbolsWidth(data); }
  }

  /** What is left of the groups in front of a good checksum: five bits or more, or a bit that is
      set, behind the last whole byte; or another length than 32 bytes. */
  lemma RefusedGroups(groups: seq<Symbol>)
    ensures var spare, n := |groups| * 5 % 8, Value(groups, 5);
      && (DecodeGroups(groups) == Invalid(InvalidPadding) <==> spare >= 5 || n % Pow2(spare) != 0)
      && (DecodeGroups(groups) == Invalid(InvalidPayloadLength) <==>
            spare < 5 && n % Pow2(spare) == 0 && |groups| * 5 / 8 != 32)
  {
    SymbolsWithin(groups);
    hide Pow2, Value, Digits, Within;
  }

  lemma {:induction false} NormalIs(s: string)
    requires forall i :: 0 <= i < |s| ==> !Ignorable(s[i]) && !IsUpper(s[i])
    ensures Normalize(s) == s && Lower(s) == s && !Mixed(s)
  {
    hide Ignorable;
    if s != "" {
      NormalIs(s[..|s| - 1]);
      assert s == s[..|s| - 1] + [s[|s| - 1]];
    }
  }

  lemma PlainIsNormal(c: char)
    requires Plain(c) || c == '1'
    ensures !Ignorable(c) && !IsUpper(c)
  {}

  lemma EncodedNormal(p: seq<byte>)
    requires |p| == 32
    ensures forall i :: 0 <= i < |Encode(p)| ==> Plain(Encode(p)[i]) || Encode(p)[i] == '1'
  {
    hide Groups, CreateChecksum;
    CharsPlain(Groups(p) + CreateChecksum(HRP_BYTES, Groups(p)));
  }

  /** Printing then parsing an address gives it back. */
  lemma RoundTrip(p: seq<byte>)
    requires |p| == 32
    ensures Decode(Encode(p)) == Payload(p)
  {
    hide Encode, Decode, Plain, Ignorable, Mixed, IsUpper;
    EncodedNormal(p);
    forall i | 0 <= i < |Encode(p)|
      ensures !Ignorable(Encode(p)[i]) && !IsUpper(Encode(p)[i])
    {
      PlainIsNormal(Encode(p)[i]);
    }
    NormalIs(Encode(p));
    DecodesExactly(Encode(p), p);
  }

  /** An ignorable character anywhere in a text makes no difference. */
  lemma IgnorableDropped(a: string, c: char, b: string)
    requires Ignorable(c)
    ensures Decode(a + [c] + b) == Decode(a + b)
  {
    hide DecodeLower, Mixed, Ignorable;
    NormalizeWithout(a, c, b);
  }

  lemma {:induction false} NormalizeWithout(a: string, c: char, b: string)
    requires Ignorable(c)
    ensures Normalize(a + [c] + b) == Normalize(a + b)
  {
    hide Ignorable;
    if b == "" {
      assert a + [c] + b == a + [c] && a + b == a;
      assert (a + [c])[..|a|] == a;
    } else {
      var n := |b| - 1;
      NormalizeWithout(a, c, b[..n]);
      assert (a + [c] + b)[..|a + [c] + b| - 1] == a + [c] + b[..n];
      assert (a + b)[..|a + b| - 1] == a + b[..n];
    }
  }

  /** `to_ascii_uppercase` */
  function Upper(s: string): (r: string)
    ensures |r| == |s|
  {
    seq(|s|, i requires 0 <= i < |s| => if IsLower(s[i]) then (s[i] as int - 32) as char else s[i])
  }

  /** The upper-case print of an address parses as well. */
  lemma UpperRoundTrip(p: seq<byte>)
    requires |p| == 32
    ensures Decode(Upper(Encode(p))) == Payload(p)
  {
    hide Encode, Decode, Ignorable, Mixed, Lower, Upper, Normalize, Plain;
    EncodedNormal(p);
    UpperNormal(Encode(p));
    DecodesExactly(Upper(Encode(p)), p);
  }

  lemma UpperNormal(s: string)
    requires forall i :: 0 <= i < |s| ==> Plain(s[i]) || s[i] == '1'
    ensures Normalize(Upper(s)) == Upper(s) && Lower(Upper(s)) == s && !Mixed(Upper(s))
  {
    hide Ignorable, Normalize;
    var u := Upper(s);
    forall i | 0 <= i < |s| ensures !Ignorable(u[i]) && !IsLower(u[i]) && LowerChar(u[i]) == s[i] { UpperChar(s[i]); }
    NothingDropped(u);
    assert Lower(u) == s;
  }

  lemma UpperChar(c: char)
    requires Plain(c) || c == '1'
    ensures var u := if IsLower(c) then (c as int - 32) as char else c;
      !Ignorable(u) && !IsLower(u) && LowerChar(u) == c
  {}

  lemma {:induction false} NothingDropped(s: string)
    requires forall i :: 0 <= i < |s| ==> !Ignorable(s[i])
    ensures Normalize(s) == s
  {
    hide Ignorable;
    if s != "" {
      NothingDropped(s[..|s| - 1]);
      assert s == s[..|s| - 1] + [s[|s| - 1]];
    }
  }

  /** Two payloads never share an address. */
  lemma EncodeInjective(p: seq<byte>, q: seq<byte>)
    requires |p| == 32 && |q| == 32 && Encode(p) == Encode(q)
    ensures p == q
  {
    hide Encode, Decode;
    RoundTrip(p);
    RoundTrip(q);
  }

  /** Replacing any one character after the separator by another of the character set is
      always reported as a checksum error. */
  lemma OneCharError(p: seq<byte>, i: nat, v: Symbol)
    requires |p| == 32 && 5 <= i < 63 && |Encode(p)| == 63 && Encode(p)[i] != CHARSET[v]
    ensures Decode(Encode(p)[i := CHARSET[v]]) == Invalid(InvalidChecksum)
  {
    hide Groups, CreateChecksum, VerifyChecksum, DecodeData, DecodeLower, Encode, Plain, Ignorable;
    hide Mixed, IsUpper, Normalize, Lower;
    EncodedData(p);
    var d := Groups(p);
    var data := d + CreateChecksum(HRP_BYTES, d);
    ChecksumUnique(HRP_BYTES, d, CreateChecksum(HRP_BYTES, d));
    var k, bad := i - 5, data[i - 5 := v];
    var t := Encode(p)[i := CHARSET[v]];
    assert Chars(data)[k] == Encode(p)[i];
    assert Chars(bad) == Chars(data)[k := CHARSET[v]];
    assert t == HRP + "1" + Chars(bad);
    SingleErrorDetected(HRP_BYTES, data, k, v);
    CharsPlain(bad);
    EncodedNormal(p);
    IndexOf(v);
    forall j | 0 <= j < |t| ensures !Ignorable(t[j]) && !IsUpper(t[j]) {
      assert t[j] == if j == i then CHARSET[v] else Encode(p)[j];
      PlainIsNormal(t[j]);
    }
    NormalIs(t);
    DecodesByData(Chars(bad));
    DataOf(bad);
  }

  // ------------------------------------------------------ the source's loops

  method NormalizeInput(s: string) returns (out: string)
    ensures out == Normalize(s)
  {
    hide Ignorable;
    out := "";
    for i := 0 to |s|
      invariant out == Normalize(s[..i])
    {
      assert s[..i + 1][..i] == s[..i];
      if !Ignorable(s[i]) {
        out := out + [s[i]];
      }
    }
    assert s[..|s|] == s;
  }

  method EncodeKron(payload: seq<byte>) returns (out: string)
    ensures out == Encode(payload)
  {
    hide Regrouped, CreateChecksum;
    RegroupsBytes(payload);
    var data := ConvertBits(payload, 8, 5, true);
    var groups := AsSymbols(data.value);
    var checksum := MakeChecksum(HRP_BYTES, groups);
    out := HRP + "1";
    var all := groups + checksum;
    for i := 0 to |all|
      invariant out == HRP + "1" + Chars(all[..i])
    {
      assert Chars(all[..i + 1]) == Chars(all[..i]) + [CHARSET[all[i]]];
      out := out + [CHARSET[all[i]]];
    }
    assert all[..|all|] == all;
  }

  /** `charset_index` over the data part, stopping at the first stranger. */
  method ReadSymbols(s: string) returns (data: Option<seq<Symbol>>)
    ensures data == Symbols(s)
  {
    hide Index;
    var out: seq<Symbol> := [];
    for i := 0 to |s|
      invariant Symbols(s[..i]) == Some(out)
    {
      assert s[..i + 1][..i] == s[..i];
      var v := Index(s[i]);
      if v == None {
        StrangerStops(s, i + 1);
        return None;
      }
      out := out + [v.value];
    }
    assert s[..|s|] == s;
    data := Some(out);
  }

  lemma {:induction false} StrangerStops(s: string, n: nat)
    requires n <= |s| && Symbols(s[..n]) == None
    ensures Symbols(s) == None
    decreases |s| - n
  {
    hide Index;
    if n == |s| {
      assert s[..n] == s;
    } else {
      assert s[..n + 1][..n] == s[..n];
      StrangerStops(s, n + 1);
    }
  }

  method DecodeKron(s: string) returns (r: Decoded)
    ensures r == Decode(s)
  {
    hide Regrouped, Index, Polymod, HrpExpand, Ignorable;
    var t := NormalizeInput(s);
    if t == "" {
      return Invalid(Empty);
    }
    if Mixed(t) {
      return Invalid(MixedCase);
    }
    var lowered := Lower(t);
    if Len(lowered) > 90 {
      return Invalid(InvalidChecksum);
    }
    var sep := LastOne(lowered);
    if sep == None {
      return Invalid(MissingSeparator);
    }
    if sep.value == 0 {
      return Invalid(InvalidHrp);
    }
    LastOneAt(lowered);
    if lowered[..sep.value] != HRP {
      return Invalid(InvalidHrp);
    }
    r := DecodeDataPart(lowered[sep.value + 1..]);
  }

  method DecodeDataPart(s: string) returns (r: Decoded)
    ensures r == DecodeData(s)
  {
    hide Regrouped, Index, Polymod, HrpExpand;
    if Len(s) < 6 {
      return Invalid(InvalidChecksum);
    }
    var data := ReadSymbols(s);
    if data == None {
      return Invalid(InvalidCharset);
    }
    var values := ExpandHrp(HRP_BYTES);
    var remainder := RunPolymod(values + data.value);
    if remainder != 1 {
      return Invalid(InvalidChecksum);
    }
    SymbolsWidth(s);
    var groups := data.value[..|data.value| - 6];
    var bytes := ConvertBits(groups, 5, 8, false);
    if bytes == None {
      return Invalid(InvalidPadding);
    }
    if |bytes.value| != 32 {
      return Invalid(InvalidPayloadLength);
    }
    GroupsToBytes(groups);
    r := Payload(AsBytes(bytes.value));
  }
}
