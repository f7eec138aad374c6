/**
 Standard base64 (section 4 of RFC 4648) as Go's encoding/base64 does it:
 padded, carriage returns and line feeds ignored when decoding, the unused
 bits of the last quantum not checked. Text is bytes, as in a Go string.
 */
module Base64 {
  import opened Prelude

  type Text = seq<byte>

  const PAD: byte := 61
  const CR: byte := 13
  const LF: byte := 10

  // The encoding alphabet: A-Z, a-z, 0-9, '+', '/'.
  function Digit(n: nat): byte
    requires n < 64
  {
    if n < 26 then 65 + n
    else if n < 52 then 71 + n
    else if n < 62 then n - 4
    else if n == 62 then 43
    else 47
  }

  function Value(c: byte): Option<nat> {
    if 65 <= c <= 90 then Some(c - 65)
    else if 97 <= c <= 122 then Some(c - 71)
    else if 48 <= c <= 57 then Some(c + 4)
    else if c == 43 then Some(62)
    else if c == 47 then Some(63)
    else None
  }

  const UPPER := "ABCDEFGHIJKLMNOPQRSTUVWXYZ"
  const LOWER := "abcdefghijklmnopqrstuvwxyz"
  const NUMBERS := "0123456789"

  // The digits are Table 1 of RFC 4648.
  lemma DigitIsFromTable(n: nat)
    requires n < 64
    ensures |UPPER| == |LOWER| == 26 && |NUMBERS| == 10
    ensures Digit(n) as char ==
      if n < 26 then UPPER[n]
      else if n < 52 then LOWER[n - 26]
      else if n < 62 then NUMBERS[n - 52]
      else if n == 62 then '+'
      else '/'
  {
    if n < 26 {
      assert UPPER[n] == 'A' + n as char;
    } else if n < 52 {
      assert LOWER[n - 26] == 'a' + (n - 26) as char;
    }
  }

  lemma DigitHasValue(n: nat)
    requires n < 64
    ensures Value(Digit(n)) == Some(n) && Digit(n) != PAD && Digit(n) != CR && Digit(n) != LF
  {
  }

  function EncodeGroup(a: byte, b: byte, c: byte): Text {
    [Digit(a / 4), Digit(a % 4 * 16 + b / 16), Digit(b % 16 * 4 + c / 64), Digit(c % 64)]
  }

  function Encode(d: seq<byte>): Text {
    if d == [] then []
    else if |d| == 1 then EncodeGroup(d[0], 0, 0)[..2] + [PAD, PAD]
    else if |d| == 2 then EncodeGroup(d[0], d[1], 0)[..3] + [PAD]
    else EncodeGroup(d[0], d[1], d[2]) + Encode(d[3..])
  }

  // StdEncoding.EncodedLen
  function EncodedLen(n: nat): nat {
    (n + 2) / 3 * 4
  }

  lemma {:induction false} EncodedLength(d: seq<byte>)
    ensures |Encode(d)| == EncodedLen(|d|)
  {
    if |d| <= 2 {
    } else {
      EncodedLength(d[3..]);
    }
  }

  // The bytes of four digits; the callers drop what padding stands for.
  function Bytes(v0: nat, v1: nat, v2: nat, v3: nat): seq<byte>
    requires v0 < 64 && v1 < 64 && v2 < 64 && v3 < 64
  {
    [v0 * 4 + v1 / 16, v1 % 16 * 16 + v2 / 4, v2 % 4 * 64 + v3]
  }

  lemma ValueIsSmall(c: byte)
    ensures Value(c).Some? ==> Value(c).value < 64
  {
  }

  // One quantum: its bytes, or None when it is corrupt.
  function DecodeQuantum(c0: byte, c1: byte, c2: byte, c3: byte): Option<seq<byte>> {
    if Value(c0).None? || Value(c1).None? then None
    else if c2 == PAD then
      if c3 == PAD then Some(Bytes(Value(c0).value, Value(c1).value, 0, 0)[..1]) else None
    else if Value(c2).None? then None
    else if c3 == PAD then Some(Bytes(Value(c0).value, Value(c1).value, Value(c2).value, 0)[..2])
    else if Value(c3).None? then None
    else Some(Bytes(Value(c0).value, Value(c1).value, Value(c2).value, Value(c3).value))
  }

  // Text without line breaks: whole quanta, padding only at the very end.
  function DecodeQuanta(s: Text): Option<seq<byte>> {
    if s == [] then Some([])
    else if |s| < 4 then None
    else
      match DecodeQuantum(s[0], s[1], s[2], s[3])
      case None => None
      case Some(d) =>
        if |d| < 3 && |s| > 4 then None
        else
          match DecodeQuanta(s[4..])
          case None => None
          case Some(rest) => Some(d + rest)
  }

  function Strip(s: Text): Text {
    if s == [] then []
    else if s[0] == CR || s[0] == LF then Strip(s[1..])
    else [s[0]] + Strip(s[1..])
  }

  // StdEncoding.DecodeString
  function Decode(s: Text): Option<seq<byte>> {
    DecodeQuanta(Strip(s))
  }

  lemma {:induction false} StripKeeps(s: Text)
    requires forall i | 0 <= i < |s| :: s[i] != CR && s[i] != LF
    ensures Strip(s) == s
  {
    if s == [] {
    } else {
      StripKeeps(s[1..]);
      assert s == [s[0]] + s[1..];
    }
  }

  lemma {:induction false} StripShortens(s: Text)
    ensures |Strip(s)| <= |s|
  {
    if s == [] {
    } else {
      StripShortens(s[1..]);
    }
  }

  lemma {:induction false} EncodeHasNoBreaks(d: seq<byte>)
    ensures forall i | 0 <= i < |Encode(d)| :: Encode(d)[i] != CR && Encode(d)[i] != LF
  {
    if |d| <= 2 {
    } else {
      EncodeHasNoBreaks(d[3..]);
    }
  }

  lemma Split16(x: nat, y: nat)
    requires y < 16
    ensures (x * 16 + y) / 16 == x && (x * 16 + y) % 16 == y
  {
  }

  lemma Split4(x: nat, y: nat)
    requires y < 4
    ensures (x * 4 + y) / 4 == x && (x * 4 + y) % 4 == y
  {
  }

  lemma BitsComeBack(a: byte, b: byte, c: byte)
    ensures Bytes(a / 4, a % 4 * 16 + b / 16, b % 16 * 4 + c / 64, c % 64) == [a, b, c]
  {
    Split16(a % 4, b / 16);
    Split4(b % 16, c / 64);
  }

  // Three bytes and the four digits they become are one 24-bit number.
  lemma GroupIsOneNumber(a: byte, b: byte, c: byte)
    ensures var g := EncodeGroup(a, b, c);
            && Value(g[0]).Some? && Value(g[1]).Some? && Value(g[2]).Some? && Value(g[3]).Some?
            && 0x10000 * a + 0x100 * b + c
               == 0x40000 * Value(g[0]).value + 0x1000 * Value(g[1]).value
                  + 0x40 * Value(g[2]).value + Value(g[3]).value
  {
    DigitHasValue(a / 4);
    DigitHasValue(a % 4 * 16 + b / 16);
    DigitHasValue(b % 16 * 4 + c / 64);
    DigitHasValue(c % 64);
  }

  // How a quantum of digits with known values decodes.
  lemma QuantumOfDigits(v0: nat, v1: nat, v2: nat, v3: nat)
    requires v0 < 64 && v1 < 64 && v2 < 64 && v3 < 64
    ensures DecodeQuantum(Digit(v0), Digit(v1), Digit(v2), Digit(v3)) == Some(Bytes(v0, v1, v2, v3))
    ensures DecodeQuantum(Digit(v0), Digit(v1), Digit(v2), PAD) == Some(Bytes(v0, v1, v2, 0)[..2])
    ensures DecodeQuantum(Digit(v0), Digit(v1), PAD, PAD) == Some(Bytes(v0, v1, 0, 0)[..1])
  {
    DigitHasValue(v0);
    DigitHasValue(v1);
    DigitHasValue(v2);
    DigitHasValue(v3);
  }

  lemma GroupDecodes(a: byte, b: byte, c: byte)
    ensures var g := EncodeGroup(a, b, c); DecodeQuantum(g[0], g[1], g[2], g[3]) == Some([a, b, c])
  {
    QuantumOfDigits(a / 4, a % 4 * 16 + b / 16, b % 16 * 4 + c / 64, c % 64);
    BitsComeBack(a, b, c);
  }

  lemma PairDecodes(a: byte, b: byte)
    ensures var g := EncodeGroup(a, b, 0); DecodeQuantum(g[0], g[1], g[2], PAD) == Some([a, b])
  {
    QuantumOfDigits(a / 4, a % 4 * 16 + b / 16, b % 16 * 4, 0);
    BitsComeBack(a, b, 0);
    assert [a, b, 0][..2] == [a, b];
  }

  lemma ByteDecodes(a: byte)
    ensures var g := EncodeGroup(a, 0, 0); DecodeQuantum(g[0], g[1], PAD, PAD) == Some([a])
  {
    QuantumOfDigits(a / 4, a % 4 * 16, 0, 0);
    BitsComeBack(a, 0, 0);
    assert [a, 0, 0][..1] == [a];
  }

  lemma LastQuantum(s: Text)
    requires |s| == 4 && DecodeQuantum(s[0], s[1], s[2], s[3]).Some?
    ensures DecodeQuanta(s) == DecodeQuantum(s[0], s[1], s[2], s[3])
  {
    assert s[4..] == [];
    var d := DecodeQuantum(s[0], s[1], s[2], s[3]).value;
    assert d + [] == d;
  }

  // The bytes of one quantum.
  function Quantum(q: Text): Option<seq<byte>>
    requires |q| == 4
  {
    DecodeQuantum(q[0], q[1], q[2], q[3])
  }

  lemma QuantumThenRest(q: Text, rest: Text)
    requires |q| == 4
    ensures DecodeQuanta(q + rest).Some? <==>
            Quantum(q).Some? && DecodeQuanta(rest).Some? && (rest != [] ==> |Quantum(q).value| == 3)
    ensures DecodeQuanta(q + rest).Some? ==>
            DecodeQuanta(q + rest).value == Quantum(q).value + DecodeQuanta(rest).value
  {
    assert (q + rest)[4..] == rest;
    if Quantum(q).Some? { QuantumLength(q[0], q[1], q[2], q[3]); }
  }

  lemma Assoc<T>(a: seq<T>, b: seq<T>, c: seq<T>)
    ensures a + (b + c) == a + b + c
  {
  }

  lemma SameRemainder(three: seq<byte>, rest: seq<byte>)
    requires |three| == 3
    ensures |three + rest| % 3 == |rest| % 3
  {
  }

  lemma OneGroup(q: seq<byte>)
    requires |q| == 3
    ensures |Encode(q)| == 4 && Quantum(Encode(q)) == Some(q)
  {
    GroupDecodes(q[0], q[1], q[2]);
    assert q[3..] == [] && q == [q[0], q[1], q[2]];
    assert Encode(q) == EncodeGroup(q[0], q[1], q[2]) + [];
  }

  lemma {:induction false} QuantaRoundTrip(d: seq<byte>)
    ensures DecodeQuanta(Encode(d)) == Some(d)
  {
    if |d| == 1 {
      ByteDecodes(d[0]);
      LastQuantum(Encode(d));
      assert d == [d[0]];
    } else if |d| == 2 {
      PairDecodes(d[0], d[1]);
      LastQuantum(Encode(d));
      assert d == [d[0], d[1]];
    } else if d != [] {
      var q, rest := d[..3], d[3..];
      assert d == q + rest;
      EncodeFirst(q, rest);
      QuantaRoundTrip(rest);
      OneGroup(q);
      QuantumThenRest(Encode(q), Encode(rest));
    }
  }

  // Whatever is encoded decodes back, and the encoded form is 4 characters for
  // every 3 bytes begun.
  lemma RoundTrip(d: seq<byte>)
    ensures Decode(Encode(d)) == Some(d) && |Encode(d)| == (|d| + 2) / 3 * 4
  {
    EncodeHasNoBreaks(d);
    StripKeeps(Encode(d));
    QuantaRoundTrip(d);
    EncodedLength(d);
  }

  lemma QuantumLength(c0: byte, c1: byte, c2: byte, c3: byte)
    requires DecodeQuantum(c0, c1, c2, c3).Some?
    ensures 1 <= |DecodeQuantum(c0, c1, c2, c3).value| <= 3
  {
  }

  // What decodes has whole quanta, and at most two bytes fewer than they hold.
  lemma {:induction false} DecodedLength(s: Text)
    requires DecodeQuanta(s).Some?
    ensures |s| % 4 == 0
    ensures |s| / 4 * 3 - 2 <= |DecodeQuanta(s).value| <= |s| / 4 * 3
  {
    if s == [] {
    } else {
      QuantumLength(s[0], s[1], s[2], s[3]);
      DecodedLength(s[4..]);
      assert |s[4..]| / 4 == |s| / 4 - 1;
      if |s| == 4 { assert s[4..] == []; }
    }
  }

  // --- exactly what decodes ---

  // The digits of a last quantum that carry data; the bits they leave over are
  // not checked.
  predicate SpareBitsOnly(c: byte, e: byte, data: nat)
    requires data > 0
  {
    Value(c).Some? && Value(e).Some? && Value(c).value / data == Value(e).value / data
  }

  // Where the digit with unused bits is, counted from the end; 0: there is none.
  function SpareAt(n: nat): nat {
    if n % 3 == 1 then 3 else if n % 3 == 2 then 2 else 0
  }

  // The same text, except for the unused bits of the last digit.
  predicate SameButSpareBits(s: Text, e: Text, n: nat) {
    var k := SpareAt(n);
    && |s| == |e|
    && k <= |s|
    && (forall i | 0 <= i < |s| && i != |s| - k :: s[i] == e[i])
    && (k > 0 ==> SpareBitsOnly(s[|s| - k], e[|s| - k], if k == 3 then 16 else 4))
  }

  lemma PrefixedSame(p: Text, s: Text, e: Text, m: nat, n: nat)
    requires SameButSpareBits(s, e, m) && n % 3 == m % 3
    ensures SameButSpareBits(p + s, p + e, n)
  {
  }

  lemma DigitOfValue(c: byte)
    requires Value(c).Some?
    ensures Value(c).value < 64 && Digit(Value(c).value) == c
  {
  }

  lemma BitsGoBack(v0: nat, v1: nat, v2: nat, v3: nat)
    requires v0 < 64 && v1 < 64 && v2 < 64 && v3 < 64
    ensures var d := Bytes(v0, v1, v2, v3);
            && d[0] / 4 == v0
            && d[0] % 4 * 16 + d[1] / 16 == v1
            && d[1] % 16 * 4 + d[2] / 64 == v2
            && d[2] % 64 == v3
  {
    Split4(v0, v1 / 16);
    Split16(v1 % 16, v2 / 4);
  }

  // A full quantum is the encoding of its three bytes.
  lemma FullQuantum(a: byte, b: byte, c: byte, d: byte)
    requires DecodeQuantum(a, b, c, d).Some? && |DecodeQuantum(a, b, c, d).value| == 3
    ensures Encode(DecodeQuantum(a, b, c, d).value) == [a, b, c, d]
  {
    var x := DecodeQuantum(a, b, c, d).value;
    DigitOfValue(a);
    DigitOfValue(b);
    DigitOfValue(c);
    DigitOfValue(d);
    BitsGoBack(Value(a).value, Value(b).value, Value(c).value, Value(d).value);
    assert x[3..] == [];
    assert Encode(x) == EncodeGroup(x[0], x[1], x[2]) + [];
  }

  // A padded quantum is the encoding of its bytes but for the spare bits.
  lemma PaddedQuantum(s: Text)
    requires |s| == 4 && DecodeQuantum(s[0], s[1], s[2], s[3]).Some?
    requires |DecodeQuantum(s[0], s[1], s[2], s[3]).value| < 3
    ensures var d := DecodeQuantum(s[0], s[1], s[2], s[3]).value; SameButSpareBits(s, Encode(d), |d|)
  {
    var d := DecodeQuantum(s[0], s[1], s[2], s[3]).value;
    DigitOfValue(s[0]);
    DigitOfValue(s[1]);
    if |d| == 1 {
      BitsGoBack(Value(s[0]).value, Value(s[1]).value, 0, 0);
      var g := EncodeGroup(d[0], 0, 0);
      DigitHasValue(d[0] % 4 * 16);
      assert Encode(d) == [g[0], g[1], PAD, PAD];
      assert s == [s[0], s[1], PAD, PAD];
    } else {
      DigitOfValue(s[2]);
      BitsGoBack(Value(s[0]).value, Value(s[1]).value, Value(s[2]).value, 0);
      var g := EncodeGroup(d[0], d[1], 0);
      DigitHasValue(d[1] % 16 * 4);
      assert Encode(d) == [g[0], g[1], g[2], PAD];
      assert s == [s[0], s[1], s[2], PAD];
    }
  }

  lemma EncodeFirst(q: seq<byte>, rest: seq<byte>)
    requires |q| == 3
    ensures Encode(q + rest) == Encode(q) + Encode(rest)
  {
    assert q[3..] == [] && (q + rest)[3..] == rest;
    assert Encode(q) == EncodeGroup(q[0], q[1], q[2]) + [];
  }

  lemma FullThenRest(q: seq<byte>, rest: seq<byte>, t: Text)
    requires |q| == 3 && SameButSpareBits(t, Encode(rest), |rest|)
    ensures SameButSpareBits(Encode(q) + t, Encode(q + rest), |q + rest|)
  {
    EncodeFirst(q, rest);
    SameRemainder(q, rest);
    PrefixedSame(Encode(q), t, Encode(rest), |rest|, |q + rest|);
  }

  // Nothing decodes but encodings: what decodes to d is the encoding of d,
  // except that the unused bits of the last digit may be anything.
  lemma {:induction false} OnlyEncodingsDecode(s: Text, d: seq<byte>)
    requires DecodeQuanta(s) == Some(d)
    ensures SameButSpareBits(s, Encode(d), |d|)
  {
    if s == [] {
    } else {
      var q := DecodeQuantum(s[0], s[1], s[2], s[3]).value;
      QuantumLength(s[0], s[1], s[2], s[3]);
      if |q| < 3 {
        LastQuantum(s);
        PaddedQuantum(s);
      } else {
        var rest := DecodeQuanta(s[4..]).value;
        FullQuantum(s[0], s[1], s[2], s[3]);
        OnlyEncodingsDecode(s[4..], rest);
        FullThenRest(q, rest, s[4..]);
        assert s == [s[0], s[1], s[2], s[3]] + s[4..];
      }
    }
  }

  lemma QuantumOfOne(c: byte, a: byte)
    requires SpareBitsOnly(c, Digit(a % 4 * 16), 16)
    ensures DecodeQuantum(Digit(a / 4), c, PAD, PAD) == Some([a])
  {
    DigitHasValue(a / 4);
    DigitHasValue(a % 4 * 16);
    ValueIsSmall(c);
    Split16(a % 4, 0);
    assert Bytes(a / 4, Value(c).value, 0, 0)[..1] == [a];
  }

  lemma TwoBytesBack(a: byte, b: byte, v: nat)
    requires v < 64 && v / 4 == b % 16
    ensures Bytes(a / 4, a % 4 * 16 + b / 16, v, 0)[..2] == [a, b]
  {
    Split16(a % 4, b / 16);
  }

  lemma QuantumOfTwo(c: byte, a: byte, b: byte)
    requires SpareBitsOnly(c, Digit(b % 16 * 4), 4)
    ensures DecodeQuantum(Digit(a / 4), Digit(a % 4 * 16 + b / 16), c, PAD) == Some([a, b])
  {
    DigitHasValue(a / 4);
    DigitHasValue(a % 4 * 16 + b / 16);
    DigitHasValue(b % 16 * 4);
    ValueIsSmall(c);
    TwoBytesBack(a, b, Value(c).value);
  }

  lemma SameHead(s: Text, e: Text, n: nat)
    requires SameButSpareBits(s, e, n) && |e| == 4
    ensures s[0] == e[0] && s[3] == e[3]
    ensures if n % 3 == 1 then s[2] == e[2] && SpareBitsOnly(s[1], e[1], 16) else s[1] == e[1]
    ensures n % 3 == 2 ==> SpareBitsOnly(s[2], e[2], 4)
  {
  }

  lemma SameTail(s: Text, p: Text, e: Text, m: nat, n: nat)
    requires SameButSpareBits(s, p + e, n) && m % 3 == n % 3 && |p| == 4 && (n % 3 != 0 ==> |e| >= 4)
    ensures |s| >= 4 && s[..4] == p && SameButSpareBits(s[4..], e, m)
  {
    assert forall i | 0 <= i < |e| :: (p + e)[i + 4] == e[i];
  }

  lemma ShortSpelling(s: Text, d: seq<byte>)
    requires 1 <= |d| <= 2 && SameButSpareBits(s, Encode(d), |d|)
    ensures DecodeQuanta(s) == Some(d)
  {
    SameHead(s, Encode(d), |d|);
    DigitHasValue(0);
    if |d| == 1 {
      QuantumOfOne(s[1], d[0]);
      assert d == [d[0]];
    } else {
      QuantumOfTwo(s[2], d[0], d[1]);
      assert d == [d[0], d[1]];
    }
    LastQuantum(s);
  }

  lemma {:induction false} SpellingsDecode(s: Text, d: seq<byte>)
    requires SameButSpareBits(s, Encode(d), |d|)
    ensures DecodeQuanta(s) == Some(d)
  {
    if d == [] {
      assert s == [];
    } else if |d| <= 2 {
      ShortSpelling(s, d);
    } else {
      var q, rest := d[..3], d[3..];
      assert d == q + rest;
      EncodeFirst(q, rest);
      WholeQuanta(q);
      WholeQuanta(rest);
      SameRemainder(q, rest);
      SameTail(s, Encode(q), Encode(rest), |rest|, |d|);
      SpellingsDecode(s[4..], rest);
      FrontDecodes(s, q, rest);
    }
  }

  lemma WholeQuanta(d: seq<byte>)
    ensures |d| == 3 ==> |Encode(d)| == 4
    ensures |d| % 3 != 0 ==> |Encode(d)| >= 4
  {
    EncodedLength(d);
  }

  lemma FrontDecodes(s: Text, q: seq<byte>, rest: seq<byte>)
    requires |q| == 3 && |s| >= 4 && s[..4] == Encode(q) && DecodeQuanta(s[4..]) == Some(rest)
    ensures DecodeQuanta(s) == Some(q + rest)
  {
    OneGroup(q);
    assert s == s[..4] + s[4..];
    QuantumThenRest(Encode(q), s[4..]);
  }

  // The texts that decode to d are exactly its encodings, give or take line
  // breaks and the unused bits of the last digit.
  lemma DecodesIff(s: Text, d: seq<byte>)
    ensures Decode(s) == Some(d) <==> SameButSpareBits(Strip(s), Encode(d), |d|)
  {
    if Decode(s) == Some(d) { OnlyEncodingsDecode(Strip(s), d); }
    if SameButSpareBits(Strip(s), Encode(d), |d|) { SpellingsDecode(Strip(s), d); }
  }

  // --- text put together from two ---

  // Text that decodes as a whole can be cut between any two quanta.
  lemma {:induction false} DecodeSplits(p: Text, t: Text, quanta: nat)
    requires |p| == 4 * quanta && DecodeQuanta(p + t).Some?
    ensures DecodeQuanta(p).Some? && DecodeQuanta(t).Some?
    ensures DecodeQuanta(p + t).value == DecodeQuanta(p).value + DecodeQuanta(t).value
  {
    if p == [] {
      assert p + t == t;
    } else {
      var q, r := p[..4], p[4..];
      assert p == q + r;
      Assoc(q, r, t);
      QuantumThenRest(q, r + t);
      DecodeSplits(r, t, quanta - 1);
      QuantumThenRest(q, r);
      Assoc(Quantum(q).value, DecodeQuanta(r).value, DecodeQuanta(t).value);
    }
  }

  // Padding in front of more text is corrupt: d is what the front decodes to.
  lemma {:induction false} PaddingEnds(s: Text, d: seq<byte>, t: Text)
    requires DecodeQuanta(s) == Some(d) && |d| % 3 != 0 && t != []
    ensures DecodeQuanta(s + t).None?
  {
    var q, r := s[..4], s[4..];
    assert s == q + r;
    Assoc(q, r, t);
    QuantumThenRest(q, r);
    QuantumThenRest(q, r + t);
    if r == [] {
    } else {
      SameRemainder(Quantum(q).value, DecodeQuanta(r).value);
      PaddingEnds(r, DecodeQuanta(r).value, t);
    }
  }

  // Text that ends in padding is text whose last quantum is not full.
  lemma {:induction false} PaddingIsShortQuantum(s: Text, d: seq<byte>)
    requires DecodeQuanta(s) == Some(d)
    ensures s != [] && s[|s| - 1] == PAD <==> |d| % 3 != 0
  {
    if s == [] {
    } else {
      var q, r := s[..4], s[4..];
      assert s == q + r;
      QuantumThenRest(q, r);
      LastOfQuantum(q);
      if r == [] {
        assert q == s;
      } else {
        PaddingIsShortQuantum(r, DecodeQuanta(r).value);
        SameRemainder(Quantum(q).value, DecodeQuanta(r).value);
      }
    }
  }

  lemma LastOfQuantum(q: Text)
    requires |q| == 4 && Quantum(q).Some?
    ensures 1 <= |Quantum(q).value| <= 3
    ensures q[3] == PAD <==> |Quantum(q).value| < 3
  {
  }

  // Text without padding at its end can be followed by more.
  lemma {:induction false} DecodeJoins(p: Text, t: Text)
    requires DecodeQuanta(p).Some? && |DecodeQuanta(p).value| % 3 == 0 && DecodeQuanta(t).Some?
    ensures DecodeQuanta(p + t) == Some(DecodeQuanta(p).value + DecodeQuanta(t).value)
  {
    if p == [] {
      assert p + t == t;
      assert [] + DecodeQuanta(t).value == DecodeQuanta(t).value;
    } else {
      var q, r := p[..4], p[4..];
      assert p == q + r;
      Assoc(q, r, t);
      QuantumThenRest(q, r);
      LastOfQuantum(q);
      if r == [] {
        assert DecodeQuanta(r) == Some([]);
      } else {
        SameRemainder(Quantum(q).value, DecodeQuanta(r).value);
      }
      DecodeJoins(r, t);
      QuantumThenRest(q, r + t);
      Assoc(Quantum(q).value, DecodeQuanta(r).value, DecodeQuanta(t).value);
    }
  }
}
