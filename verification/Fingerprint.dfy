/**
 The printed SHA-256 fingerprint of a certificate: upper-case hex groups of
 two digits joined by colons. It can be parsed back, so different digests
 never print the same.
 */
module Fingerprint {
  import opened Prelude

  type Digest = d: seq<byte> | |d| == 32 witness seq(32, _ => 0)

  function HexDigit(n: nat): char
    requires n < 16
  {
    "0123456789ABCDEF"[n]
  }

  function HexPair(b: byte): string {
    [HexDigit(b / 16), HexDigit(b % 16)]
  }

  // strings.ToUpper(hex.EncodeToString(d))
  function HexUpper(d: seq<byte>): string {
    if d == [] then "" else HexPair(d[0]) + HexUpper(d[1..])
  }

  // strings.Join(parts, sep)
  function Join(parts: seq<string>, sep: string): string {
    if parts == [] then ""
    else if |parts| == 1 then parts[0]
    else parts[0] + sep + Join(parts[1..], sep)
  }

  function Groups(d: seq<byte>): seq<string> {
    seq(|d|, i requires 0 <= i < |d| => HexPair(d[i]))
  }

  // What certificateFingerprint returns for digest `d`.
  function Format(d: seq<byte>): string {
    Join(Groups(d), ":")
  }

  lemma {:induction false} HexUpperAt(d: seq<byte>, i: nat)
    requires i < |d|
    ensures |HexUpper(d)| == 2 * |d| && HexUpper(d)[2 * i..2 * i + 2] == HexPair(d[i])
  {
    HexUpperLength(d);
    if i == 0 {
    } else {
      HexUpperAt(d[1..], i - 1);
      assert HexUpper(d)[2 * i..2 * i + 2] == HexUpper(d[1..])[2 * (i - 1)..2 * (i - 1) + 2];
    }
  }

  lemma {:induction false} HexUpperLength(d: seq<byte>)
    ensures |HexUpper(d)| == 2 * |d|
  {
    if d == [] {
    } else {
      HexUpperLength(d[1..]);
    }
  }

  // certificateFingerprint, from the digest on.
  method CertificateFingerprint(sum: Digest) returns (s: string)
    ensures s == Format(sum)
    ensures |s| == 95
    ensures Parse(s) == Some(sum)
  {
    var raw := HexUpper(sum);
    HexUpperLength(sum);
    var parts := [];
    var i := 0;
    while i < |raw|
      invariant 0 <= i <= |raw| && i % 2 == 0
      invariant parts == Groups(sum[..i / 2])
    {
      HexUpperAt(sum, i / 2);
      assert sum[..i / 2 + 1] == sum[..i / 2] + [sum[i / 2]];
      parts := parts + [raw[i..i + 2]];
      i := i + 2;
    }
    assert sum[..32] == sum;
    s := Join(parts, ":");
    FormatShape(sum);
    FormatParses(sum);
  }

  function DigitValue(c: char): Option<nat> {
    if '0' <= c <= '9' then Some((c - '0') as nat)
    else if 'A' <= c <= 'F' then Some((c - 'A') as nat + 10)
    else None
  }

  // Reads a printed fingerprint back.
  function Parse(s: string): Option<seq<byte>> {
    if s == "" then Some([])
    else if |s| < 2 || DigitValue(s[0]).None? || DigitValue(s[1]).None? then None
    else
      var b: byte := ByteOf(DigitValue(s[0]).value, DigitValue(s[1]).value);
      if |s| == 2 then Some([b])
      else if s[2] != ':' || |s| == 3 then None
      else
        match Parse(s[3..])
        case None => None
        case Some(rest) => Some([b] + rest)
  }

  function ByteOf(hi: nat, lo: nat): byte {
    (hi * 16 + lo) % 256
  }

  lemma PairParses(b: byte)
    ensures var s := HexPair(b);
            && DigitValue(s[0]) == Some(b / 16)
            && DigitValue(s[1]) == Some(b % 16)
            && ByteOf(b / 16, b % 16) == b
  {
    DigitParses(b / 16);
    DigitParses(b % 16);
  }

  lemma DigitParses(n: nat)
    requires n < 16
    ensures DigitValue(HexDigit(n)) == Some(n)
  {
    assert "0123456789ABCDEF"[n] == if n < 10 then '0' + n as char else 'A' + (n - 10) as char;
  }

  lemma FormatSplits(d: seq<byte>)
    requires |d| >= 2
    ensures Format(d) == HexPair(d[0]) + ":" + Format(d[1..])
  {
    assert Groups(d)[1..] == Groups(d[1..]);
    assert Groups(d)[0] == HexPair(d[0]);
  }

  // Three characters to a group, except that there is no colon at the end.
  lemma {:induction false} FormatShape(d: seq<byte>)
    requires d != []
    ensures |Format(d)| == 3 * |d| - 1
  {
    if |d| == 1 {
      assert Groups(d) == [HexPair(d[0])];
    } else {
      FormatSplits(d);
      FormatShape(d[1..]);
    }
  }

  lemma PairThenRest(b: byte, s: string)
    ensures Parse(HexPair(b)) == Some([b])
    ensures Parse(s).Some? && s != "" ==> Parse(HexPair(b) + ":" + s) == Some([b] + Parse(s).value)
  {
    PairParses(b);
    assert (HexPair(b) + ":" + s)[3..] == s;
  }

  lemma {:induction false} FormatParses(d: seq<byte>)
    ensures Parse(Format(d)) == Some(d)
  {
    if d == [] {
    } else {
      if |d| == 1 {
        PairThenRest(d[0], "00");
        assert Groups(d) == [HexPair(d[0])];
        assert d == [d[0]];
      } else {
        FormatSplits(d);
        FormatShape(d[1..]);
        FormatParses(d[1..]);
        PairThenRest(d[0], Format(d[1..]));
        assert [d[0]] + d[1..] == d;
      }
    }
  }

  // The text, character by character.
  lemma {:induction false} FormatAt(d: seq<byte>, i: nat)
    requires i < |d|
    ensures |Format(d)| == 3 * |d| - 1
    ensures Format(d)[3 * i] == "0123456789ABCDEF"[d[i] / 16]
    ensures Format(d)[3 * i + 1] == "0123456789ABCDEF"[d[i] % 16]
    ensures i < |d| - 1 ==> Format(d)[3 * i + 2] == ':'
  {
    FormatShape(d);
    if |d| == 1 {
      assert Groups(d) == [HexPair(d[0])];
    } else {
      FormatSplits(d);
      if i == 0 {
      } else {
        FormatAt(d[1..], i - 1);
        Three(HexPair(d[0]) + ":", Format(d[1..]), 3 * i - 3);
      }
    }
  }

  lemma Three(a: string, b: string, k: nat)
    requires |a| == 3 && k < |b|
    ensures (a + b)[k + 3] == b[k]
    ensures k + 1 < |b| ==> (a + b)[k + 4] == b[k + 1]
    ensures k + 2 < |b| ==> (a + b)[k + 5] == b[k + 2]
  {
  }

  lemma DigestsPrintDifferently(d: Digest, d': Digest)
    requires Format(d) == Format(d')
    ensures d == d'
  {
    FormatParses(d);
    FormatParses(d');
  }
}
