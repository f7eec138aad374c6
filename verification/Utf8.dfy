/**
 Ranging over a Go string (UTF-8, section 4 of RFC 3629) and the test that
 decides whether a pulled file is shown as text.
 */
module Utf8 {
  import opened Prelude

  const REPLACEMENT: nat := 0xFFFD

  // A Unicode scalar value.
  predicate Scalar(r: nat) {
    r < 0xD800 || 0xE000 <= r < 0x110000
  }

  function EncodeRune(r: nat): (s: seq<byte>)
    requires Scalar(r)
    ensures 1 <= |s| <= 4
  {
    if r < 0x80 then [r]
    else if r < 0x800 then [0xC0 + r / 0x40, 0x80 + r % 0x40]
    else if r < 0x10000 then [0xE0 + r / 0x1000, 0x80 + r / 0x40 % 0x40, 0x80 + r % 0x40]
    else [0xF0 + r / 0x40000, 0x80 + r / 0x1000 % 0x40, 0x80 + r / 0x40 % 0x40, 0x80 + r % 0x40]
  }

  predicate Tail(b: byte) {
    0x80 <= b < 0xC0
  }

  // The bytes that may follow first byte b: no overlong forms, no surrogates,
  // nothing beyond U+10FFFF.
  predicate Second(b: byte, c: byte) {
    if b == 0xE0 then 0xA0 <= c < 0xC0
    else if b == 0xED then 0x80 <= c < 0xA0
    else if b == 0xF0 then 0x90 <= c < 0xC0
    else if b == 0xF4 then 0x80 <= c < 0x90
    else Tail(c)
  }

  // How many bytes a rune starting with b has; 0 if none starts with it.
  function Width(b: byte): nat {
    if b < 0x80 then 1
    else if b < 0xC2 then 0
    else if b < 0xE0 then 2
    else if b < 0xF0 then 3
    else if b < 0xF5 then 4
    else 0
  }

  // The payload bits of a first byte ...
  function LeadBits(b: byte): nat {
    if b < 0x80 then b else if b < 0xE0 then b % 0x20 else if b < 0xF0 then b % 0x10 else b % 8
  }

  // ... and with them those of the bytes that follow it.
  function Bits(lead: nat, tail: seq<byte>): nat {
    if tail == [] then lead else Bits(lead, tail[..|tail| - 1]) * 0x40 + tail[|tail| - 1] % 0x40
  }

  // The bytes after the first are such as may follow it.
  predicate Follow(s: seq<byte>, w: nat)
    requires 1 <= w <= |s|
  {
    (w > 1 ==> Second(s[0], s[1])) && forall i | 2 <= i < w :: Tail(s[i])
  }

  // The rune at the front of s and its width. An ill-formed byte is U+FFFD,
  // one byte wide.
  function DecodeRune(s: seq<byte>): (res: (nat, nat))
    requires s != []
    ensures 1 <= res.1 <= |s| && res.1 <= 4
  {
    var w := Width(s[0]);
    if w == 0 || |s| < w || !Follow(s, w) then (REPLACEMENT, 1)
    else (Bits(LeadBits(s[0]), s[1..w]), w)
  }

  function Join2(a: nat, b: nat): nat {
    a % 0x20 * 0x40 + b % 0x40
  }

  function Join3(a: nat, b: nat, c: nat): nat {
    a % 0x10 * 0x1000 + b % 0x40 * 0x40 + c % 0x40
  }

  function Join4(a: nat, b: nat, c: nat, d: nat): nat {
    a % 8 * 0x40000 + b % 0x40 * 0x1000 + c % 0x40 * 0x40 + d % 0x40
  }

  lemma BitsOfThree(lead: nat, b: byte, c: byte, d: byte)
    ensures Bits(lead, [b]) == lead * 0x40 + b % 0x40
    ensures Bits(lead, [b, c]) == lead * 0x1000 + b % 0x40 * 0x40 + c % 0x40
    ensures Bits(lead, [b, c, d]) == lead * 0x40000 + b % 0x40 * 0x1000 + c % 0x40 * 0x40 + d % 0x40
  {
    assert [b][..0] == [] && [b, c][..1] == [b] && [b, c, d][..2] == [b, c];
    assert Bits(lead, []) == lead;
    assert Bits(lead, [b]) == lead * 0x40 + b % 0x40;
    assert Bits(lead, [b, c]) == Bits(lead, [b]) * 0x40 + c % 0x40;
    assert Bits(lead, [b, c, d]) == Bits(lead, [b, c]) * 0x40 + d % 0x40;
  }

  // The rune by the number of its bytes.
  lemma DecodesBits(s: seq<byte>, w: nat)
    requires s != [] && w == Width(s[0]) && 1 <= w <= |s| && Follow(s, w)
    ensures DecodeRune(s) ==
      (if w == 1 then s[0] as nat
       else if w == 2 then Join2(s[0], s[1])
       else if w == 3 then Join3(s[0], s[1], s[2])
       else Join4(s[0], s[1], s[2], s[3]), w)
  {
    if w == 1 {
      assert s[1..1] == [];
    } else if w == 2 {
      assert s[1..2] == [s[1]];
      BitsOfThree(LeadBits(s[0]), s[1], 0, 0);
    } else if w == 3 {
      assert s[1..3] == [s[1], s[2]];
      BitsOfThree(LeadBits(s[0]), s[1], s[2], 0);
    } else {
      assert s[1..4] == [s[1], s[2], s[3]];
      BitsOfThree(LeadBits(s[0]), s[1], s[2], s[3]);
    }
  }

  lemma Digits(r: nat)
    ensures r / 0x40 / 0x40 == r / 0x1000
    ensures r / 0x1000 / 0x40 == r / 0x40000
    ensures r == r / 0x1000 * 0x1000 + r / 0x40 % 0x40 * 0x40 + r % 0x40
    ensures r == r / 0x40000 * 0x40000 + r / 0x1000 % 0x40 * 0x1000 + r / 0x40 % 0x40 * 0x40 + r % 0x40
  {
  }

  // The table of section 3 of RFC 3629: the number of bytes by the range of the
  // scalar value, the mark of each byte, and the value in the bits that are left.
  lemma EncodesByTable(r: nat)
    requires Scalar(r)
    ensures var s := EncodeRune(r);
            && (r < 0x80 ==> s == [r])
            && (0x80 <= r < 0x800 ==>
                 && |s| == 2 && 0xC2 <= s[0] < 0xE0 && 0x80 <= s[1] < 0xC0
                 && r == (s[0] as int - 0xC0) * 64 + (s[1] as int - 0x80))
            && (0x800 <= r < 0x10000 ==>
                 && |s| == 3 && 0xE0 <= s[0] < 0xF0 && 0x80 <= s[1] < 0xC0 && 0x80 <= s[2] < 0xC0
                 && r == (s[0] as int - 0xE0) * 4096 + (s[1] as int - 0x80) * 64 + (s[2] as int - 0x80))
            && (0x10000 <= r ==>
                 && |s| == 4 && 0xF0 <= s[0] < 0xF5
                 && 0x80 <= s[1] < 0xC0 && 0x80 <= s[2] < 0xC0 && 0x80 <= s[3] < 0xC0
                 && r == (s[0] as int - 0xF0) * 262144 + (s[1] as int - 0x80) * 4096 + (s[2] as int - 0x80) * 64 + (s[3] as int - 0x80))
  {
    Digits(r);
  }

  lemma LastDigit(high: nat, low: nat)
    requires low < 0x40
    ensures (high * 0x40 + low) / 0x40 == high && (high * 0x40 + low) % 0x40 == low
  {
  }

  lemma FourDigits(x: nat, y: nat, z: nat, u: nat)
    requires y < 0x40 && z < 0x40 && u < 0x40
    ensures var r := x * 0x40000 + y * 0x1000 + z * 0x40 + u;
            && r / 0x40000 == x && r / 0x1000 % 0x40 == y && r / 0x40 % 0x40 == z && r % 0x40 == u
            && (x == 0 ==> r / 0x1000 == y)
  {
    Digits(x * 0x40000 + y * 0x1000 + z * 0x40 + u);
    LastDigit(x * 0x1000 + y * 0x40 + z, u);
    LastDigit(x * 0x40 + y, z);
    LastDigit(x, y);
  }

  lemma DecodesShort(r: nat, rest: seq<byte>)
    requires r < 0x800
    ensures DecodeRune(EncodeRune(r) + rest) == (r, |EncodeRune(r)|)
  {
    var s := EncodeRune(r) + rest;
    if r < 0x80 {
      DecodesBits(s, 1);
    } else {
      assert s[0] == 0xC0 + r / 0x40 && s[1] == 0x80 + r % 0x40;
      DecodesBits(s, 2);
    }
  }

  lemma DecodesThree(r: nat, rest: seq<byte>)
    requires Scalar(r) && 0x800 <= r < 0x10000
    ensures DecodeRune(EncodeRune(r) + rest) == (r, 3)
  {
    var s := EncodeRune(r) + rest;
    Digits(r);
    assert s[0] == 0xE0 + r / 0x1000 && s[1] == 0x80 + r / 0x40 % 0x40 && s[2] == 0x80 + r % 0x40;
    assert Join3(s[0], s[1], s[2]) == r;
    DecodesBits(s, 3);
  }

  // The four bytes made of these bits are in order and give them back.
  lemma FourBytes(x: nat, y: nat, z: nat, u: nat)
    requires y < 0x40 && z < 0x40 && u < 0x40 && 0x10 <= x * 0x40 + y < 0x110
    ensures var (a, b, c, d) := (0xF0 + x, 0x80 + y, 0x80 + z, 0x80 + u);
            && a < 0x100 && Width(a) == 4 && Second(a, b) && Tail(c) && Tail(d)
            && Join4(a, b, c, d) == x * 0x40000 + y * 0x1000 + z * 0x40 + u
  {
  }

  lemma DecodesFour(r: nat, rest: seq<byte>)
    requires Scalar(r) && 0x10000 <= r
    ensures DecodeRune(EncodeRune(r) + rest) == (r, 4)
  {
    var s := EncodeRune(r) + rest;
    Digits(r);
    FourBytes(r / 0x40000, r / 0x1000 % 0x40, r / 0x40 % 0x40, r % 0x40);
    assert s[0] == 0xF0 + r / 0x40000 && s[1] == 0x80 + r / 0x1000 % 0x40;
    assert s[2] == 0x80 + r / 0x40 % 0x40 && s[3] == 0x80 + r % 0x40;
    DecodesBits(s, 4);
  }

  // Decoding finds a rune's encoding, whatever follows it.
  lemma DecodesEncoded(r: nat, rest: seq<byte>)
    requires Scalar(r)
    ensures DecodeRune(EncodeRune(r) + rest) == (r, |EncodeRune(r)|)
  {
    if r < 0x800 { DecodesShort(r, rest); }
    else if r < 0x10000 { DecodesThree(r, rest); }
    else { DecodesFour(r, rest); }
  }

  lemma Payload(b: byte)
    requires Tail(b)
    ensures b == 0x80 + b % 0x40
  {
  }

  lemma LeadOfFour(a: byte, b: byte)
    requires 0xF0 <= a < 0xF5 && Second(a, b)
    ensures Tail(b) && a == 0xF0 + a % 8 && 0x10 <= a % 8 * 0x40 + b % 0x40 < 0x110
  {
  }

  lemma EncodesThree(a: byte, b: byte, c: byte)
    requires 0xE0 <= a < 0xF0 && Second(a, b) && Tail(c)
    ensures var r := Join3(a, b, c); Scalar(r) && EncodeRune(r) == [a, b, c]
  {
    var r := Join3(a, b, c);
    FourDigits(0, a % 0x10, b % 0x40, c % 0x40);
  }

  lemma EncodesFour(a: byte, b: byte, c: byte, d: byte)
    requires 0xF0 <= a < 0xF5 && Second(a, b) && Tail(c) && Tail(d)
    ensures var r := Join4(a, b, c, d); Scalar(r) && EncodeRune(r) == [a, b, c, d]
  {
    var r := Join4(a, b, c, d);
    FourDigits(a % 8, b % 0x40, c % 0x40, d % 0x40);
    LeadOfFour(a, b);
    Payload(b);
    Payload(c);
    Payload(d);
    assert 0x10000 <= r < 0x110000;
  }

  // What is decoded, unless it stands for an ill-formed byte, is encoded there.
  lemma EncodesDecoded(s: seq<byte>)
    requires s != [] && DecodeRune(s) != (REPLACEMENT, 1)
    ensures var (r, w) := DecodeRune(s); Scalar(r) && EncodeRune(r) == s[..w]
  {
    var w := Width(s[0]);
    if w > 0 && |s| >= w && Follow(s, w) { DecodesBits(s, w); }
    if w == 2 {
      assert Join2(s[0], s[1]) / 0x40 == s[0] % 0x20;
    } else if w == 3 {
      EncodesThree(s[0], s[1], s[2]);
    } else if w == 4 {
      EncodesFour(s[0], s[1], s[2], s[3]);
    }
  }

  // The runes of a string, as range yields them.
  function Runes(s: seq<byte>): seq<nat> {
    if s == [] then []
    else
      var (r, w) := DecodeRune(s);
      [r] + Runes(s[w..])
  }

  function Count(rs: seq<nat>): nat {
    if rs == [] then 0
    else Count(rs[..|rs| - 1]) + if rs[|rs| - 1] != REPLACEMENT then 1 else 0
  }

  const SAMPLE: nat := 257

  // The runes the test looks at.
  function Sample(data: seq<byte>): seq<nat> {
    var rs := Runes(data);
    if |rs| <= SAMPLE then rs else rs[..SAMPLE]
  }

  // No NUL byte, and at least 80% of the sampled runes are not U+FFFD.
  predicate LooksLikeText(data: seq<byte>) {
    0 !in data && Count(Sample(data)) * 10 >= |Sample(data)| * 8
  }

  lemma FrontRune(data: seq<byte>, i: nat)
    requires i < |data|
    ensures var (r, w) := DecodeRune(data[i..]);
            i + w <= |data| && Runes(data[i..]) == [r] + Runes(data[i + w..])
  {
    var w := DecodeRune(data[i..]).1;
    assert data[i..][w..] == data[i + w..];
  }

  lemma CountOneMore(seen: seq<nat>, r: nat)
    ensures Count(seen + [r]) == Count(seen) + if r != REPLACEMENT then 1 else 0
  {
    assert (seen + [r])[..|seen|] == seen;
  }

  lemma Shifted(seen: seq<nat>, r: nat, rest: seq<nat>, later: seq<nat>)
    requires rest == [r] + later
    ensures seen + rest == (seen + [r]) + later
  {
  }

  // One step of ranging over `data` from byte i, when `seen` came before.
  lemma RangeStep(data: seq<byte>, i: nat, seen: seq<nat>)
    requires i < |data| && seen + Runes(data[i..]) == Runes(data)
    ensures var (r, w) := DecodeRune(data[i..]);
            && i + w <= |data|
            && (seen + [r]) + Runes(data[i + w..]) == Runes(data)
            && Count(seen + [r]) == Count(seen) + if r != REPLACEMENT then 1 else 0
  {
    var (r, w) := DecodeRune(data[i..]);
    FrontRune(data, i);
    CountOneMore(seen, r);
    Shifted(seen, r, Runes(data[i..]), Runes(data[i + w..]));
  }

  // The rune at byte i, and where the next one starts.
  method NextRune(data: seq<byte>, i: nat, ghost seen: seq<nat>) returns (rune: nat, next: nat)
    requires i < |data| && seen + Runes(data[i..]) == Runes(data)
    ensures i < next <= |data|
    ensures seen + [rune] + Runes(data[next..]) == Runes(data)
    ensures Count(seen + [rune]) == Count(seen) + if rune != REPLACEMENT then 1 else 0
  {
    RangeStep(data, i, seen);
    var found := DecodeRune(data[i..]);
    return found.0, i + found.1;
  }

  // What is counted is everything but U+FFFD.
  lemma {:induction false} CountIs(rs: seq<nat>)
    ensures Count(rs) == |rs| - multiset(rs)[0xFFFD]
  {
    if rs == [] {
    } else {
      CountIs(rs[..|rs| - 1]);
      assert rs == rs[..|rs| - 1] + [rs[|rs| - 1]];
    }
  }

  lemma SampleIs(data: seq<byte>, i: nat, seen: seq<nat>)
    requires i <= |data| && seen + Runes(data[i..]) == Runes(data)
    requires |seen| == SAMPLE || (|seen| < SAMPLE && i == |data|)
    ensures Sample(data) == seen
  {
    assert i == |data| ==> Runes(data[i..]) == [];
    assert Runes(data)[..|seen|] == seen;
  }

  // isText
  method IsText(data: seq<byte>) returns (text: bool)
    ensures text == LooksLikeText(data)
    // No NUL byte, and of the first 257 runes at least 80% are not U+FFFD.
    ensures text <==>
      && 0 !in data
      && var rs := Runes(data);
         var n := if |rs| <= 257 then |rs| else 257;
         10 * (n - multiset(rs[..n])[0xFFFD]) >= 8 * n
  {
    if 0 in data { return false; }
    var valid, total, i := 0, 0, 0;
    ghost var seen: seq<nat> := [];
    while i < |data|
      invariant 0 <= i <= |data|
      invariant seen + Runes(data[i..]) == Runes(data)
      invariant total == |seen| <= 256 && valid == Count(seen)
      decreases |data| - i
    {
      var rune, next := NextRune(data, i, seen);
      seen := seen + [rune];
      if rune != REPLACEMENT { valid := valid + 1; }
      total := total + 1;
      i := next;
      if total > 256 { break; }
    }
    SampleIs(data, i, seen);
    CountIs(seen);
    assert Runes(data)[..|seen|] == seen;
    return total == 0 || valid * 10 >= total * 8;
  }

  // --- what well-formed text is ---

  function EncodeAll(rs: seq<nat>): seq<byte>
    requires forall r | r in rs :: Scalar(r)
  {
    if rs == [] then [] else EncodeRune(rs[0]) + EncodeAll(rs[1..])
  }

  // UTF-8 round trip: ranging over encoded scalar values yields them.
  lemma {:induction false} RunesOfEncoded(rs: seq<nat>)
    requires forall r | r in rs :: Scalar(r)
    ensures Runes(EncodeAll(rs)) == rs
  {
    if rs == [] {
    } else {
      DecodesEncoded(rs[0], EncodeAll(rs[1..]));
      RunesOfEncoded(rs[1..]);
      assert EncodeAll(rs)[|EncodeRune(rs[0])|..] == EncodeAll(rs[1..]);
    }
  }

  lemma {:induction false} CountAll(rs: seq<nat>)
    requires REPLACEMENT !in rs
    ensures Count(rs) == |rs|
  {
    if rs == [] {
    } else {
      CountAll(rs[..|rs| - 1]);
    }
  }

  lemma {:induction false} NoNulByte(rs: seq<nat>)
    requires forall r | r in rs :: Scalar(r)
    ensures 0 in EncodeAll(rs) <==> 0 in rs
  {
    if rs == [] {
    } else {
      NoNulByte(rs[1..]);
      assert 0 in EncodeRune(rs[0]) <==> rs[0] == 0 by {
        if rs[0] == 0 { assert EncodeRune(0)[0] == 0; }
      }
      assert rs == [rs[0]] + rs[1..];
    }
  }

  // Every well-formed text without NUL and U+FFFD is taken for text.
  lemma WellFormedTextIsText(rs: seq<nat>)
    requires forall r | r in rs :: Scalar(r)
    requires 0 !in rs && REPLACEMENT !in rs
    ensures LooksLikeText(EncodeAll(rs))
  {
    RunesOfEncoded(rs);
    NoNulByte(rs);
    CountAll(Sample(EncodeAll(rs)));
  }

  // --- what survives being sent as Unicode ---

  // No byte of s is ill-formed.
  predicate WellFormed(s: seq<byte>) {
    s != [] ==> DecodeRune(s) != (REPLACEMENT, 1) && WellFormed(s[DecodeRune(s).1..])
  }

  // A decoded rune can be encoded, in no less space than it was found in, and
  // in more only if it stands for an ill-formed byte.
  lemma RuneComesBack(s: seq<byte>)
    requires s != []
    ensures var (r, w) := DecodeRune(s);
            && Scalar(r)
            && if (r, w) == (REPLACEMENT, 1) then |EncodeRune(r)| == 3 else EncodeRune(r) == s[..w]
  {
    if DecodeRune(s) != (REPLACEMENT, 1) { EncodesDecoded(s); }
  }

  lemma {:induction false} RunesAreScalar(s: seq<byte>)
    ensures forall r | r in Runes(s) :: Scalar(r)
  {
    if s == [] {
    } else {
      RuneComesBack(s);
      RunesAreScalar(s[DecodeRune(s).1..]);
    }
  }

  // A string that has been written as Unicode text and read back: every
  // ill-formed byte has become U+FFFD.
  function Coerced(s: seq<byte>): seq<byte> {
    RunesAreScalar(s);
    EncodeAll(Runes(s))
  }

  lemma CoercedFront(s: seq<byte>)
    requires s != []
    ensures Scalar(DecodeRune(s).0)
    ensures Coerced(s) == EncodeRune(DecodeRune(s).0) + Coerced(s[DecodeRune(s).1..])
  {
    RuneComesBack(s);
    var (r, w) := DecodeRune(s);
    assert Runes(s)[1..] == Runes(s[w..]) && Runes(s)[0] == r;
  }

  lemma Halves(s: seq<byte>, w: nat)
    requires w <= |s|
    ensures s[..w] + s[w..] == s
  {
  }

  lemma FrontIsKept(s: seq<byte>, rest: seq<byte>)
    requires s != [] && DecodeRune(s) != (REPLACEMENT, 1)
    requires rest == s[DecodeRune(s).1..] && Coerced(rest) == rest
    ensures Coerced(s) == s
  {
    var w := DecodeRune(s).1;
    CoercedFront(s);
    EncodesDecoded(s);
    Halves(s, w);
  }

  lemma {:induction false} WellFormedIsKept(s: seq<byte>)
    requires WellFormed(s)
    ensures Coerced(s) == s
  {
    if s == [] {
      assert Runes(s) == [];
    } else {
      var rest := s[DecodeRune(s).1..];
      WellFormedIsKept(rest);
      FrontIsKept(s, rest);
    }
  }

  lemma FrontGrows(s: seq<byte>)
    requires s != []
    ensures var (r, w) := DecodeRune(s);
            Scalar(r) && |EncodeRune(r)| >= w && ((r, w) == (REPLACEMENT, 1) ==> |EncodeRune(r)| > w)
  {
    RuneComesBack(s);
  }

  lemma {:induction false} CoercedGrows(s: seq<byte>)
    ensures |Coerced(s)| >= |s|
    ensures !WellFormed(s) ==> |Coerced(s)| > |s|
  {
    if s == [] {
    } else {
      CoercedFront(s);
      FrontGrows(s);
      CoercedGrows(s[DecodeRune(s).1..]);
    }
  }

  // Exactly the well-formed strings survive.
  lemma CoercedIff(s: seq<byte>)
    ensures Coerced(s) == s <==> WellFormed(s)
  {
    if WellFormed(s) { WellFormedIsKept(s); }
    CoercedGrows(s);
  }

  lemma AsciiFront(c: byte, rest: seq<byte>)
    requires c < 0x80
    ensures Runes([c] + rest) == [c] + Runes(rest)
    ensures WellFormed([c] + rest) == WellFormed(rest)
  {
    var s := [c] + rest;
    assert s[1..] == rest;
    assert DecodeRune(s) == (c, 1);
  }

  lemma {:induction false} AsciiIsWellFormed(s: seq<byte>)
    requires forall i | 0 <= i < |s| :: s[i] < 0x80
    ensures WellFormed(s)
  {
    if s == [] {
    } else {
      AsciiFront(s[0], s[1..]);
      AsciiIsWellFormed(s[1..]);
      assert s == [s[0]] + s[1..];
    }
  }

  // Letters and then a byte with which no rune starts.
  function BadText(letters: nat): seq<byte> {
    if letters == 0 then [255] else [97] + BadText(letters - 1)
  }

  lemma BadByte()
    ensures var bad: seq<byte> := [255]; Runes(bad) == [REPLACEMENT] && !WellFormed(bad)
  {
    var bad: seq<byte> := [255];
    assert DecodeRune(bad) == (REPLACEMENT, 1) && bad[1..] == [];
    assert [REPLACEMENT] + Runes([]) == [REPLACEMENT];
  }

  lemma {:induction false} BadTextIsBad(letters: nat)
    ensures !WellFormed(BadText(letters)) && 0 !in BadText(letters)
  {
    if letters == 0 {
      BadByte();
    } else {
      BadTextIsBad(letters - 1);
      AsciiFront(97, BadText(letters - 1));
    }
  }

  function Letters(n: nat): seq<nat> {
    seq(n, i => 97)
  }

  lemma {:induction false} BadTextRunes(letters: nat)
    ensures Runes(BadText(letters)) == Letters(letters) + [REPLACEMENT]
  {
    if letters == 0 {
      BadByte();
    } else {
      BadTextRunes(letters - 1);
      AsciiFront(97, BadText(letters - 1));
      assert [97] + Letters(letters - 1) == Letters(letters);
      assert [97] + (Letters(letters - 1) + [REPLACEMENT]) == Letters(letters) + [REPLACEMENT];
    }
  }

  // It is taken for text, from four letters on, and is not well-formed.
  lemma TextCanBeIllFormed(letters: nat)
    requires 4 <= letters < SAMPLE
    ensures LooksLikeText(BadText(letters)) && !WellFormed(BadText(letters))
  {
    BadTextIsBad(letters);
    BadTextRunes(letters);
    CountAll(Letters(letters));
    CountOneMore(Letters(letters), REPLACEMENT);
  }
}
