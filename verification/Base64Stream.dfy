/**
 base64.NewDecoder: a reader leaves out the line breaks, a buffer of 1024
 characters is filled from it, and the whole quanta in the buffer are decoded
 as a text of their own. So padding is looked for at the end of each piece and
 not only at the end of the text.
 */
module Base64Stream {
  import opened Prelude
  import opened Base64

  // --- text decoded in pieces, however it is cut ---

  function Joined(pieces: seq<Text>): Text {
    if pieces == [] then [] else pieces[0] + Joined(pieces[1..])
  }

  function Glue(a: seq<byte>, b: Option<seq<byte>>): Option<seq<byte>> {
    match b
    case None => None
    case Some(d) => Some(a + d)
  }

  function DecodePieces(pieces: seq<Text>): Option<seq<byte>> {
    if pieces == [] then Some([])
    else
      match DecodeQuanta(pieces[0])
      case None => None
      case Some(d) => Glue(d, DecodePieces(pieces[1..]))
  }

  // A cutting between quanta: no piece is empty, and all but the last have
  // whole quanta.
  predicate Cutting(pieces: seq<Text>) {
    forall i | 0 <= i < |pieces| :: pieces[i] != [] && (i < |pieces| - 1 ==> |pieces[i]| % 4 == 0)
  }

  predicate AllDecode(pieces: seq<Text>) {
    forall i | 0 <= i < |pieces| :: DecodeQuanta(pieces[i]).Some?
  }

  predicate EndsInPadding(piece: Text) {
    piece != [] && piece[|piece| - 1] == PAD
  }

  predicate HidesPadding(pieces: seq<Text>) {
    exists i | 0 <= i < |pieces| - 1 :: EndsInPadding(pieces[i])
  }

  lemma {:induction false} AllDecodeOneByOne(pieces: seq<Text>)
    ensures DecodePieces(pieces).Some? <==> AllDecode(pieces)
  {
    if pieces == [] {
    } else {
      AllDecodeOneByOne(pieces[1..]);
      assert forall i | 1 <= i < |pieces| :: pieces[i] == pieces[1..][i - 1];
      assert AllDecode(pieces) <==> DecodeQuanta(pieces[0]).Some? && AllDecode(pieces[1..]);
    }
  }

  lemma HidesFirstOrLater(pieces: seq<Text>)
    requires |pieces| > 1
    ensures HidesPadding(pieces) <==> EndsInPadding(pieces[0]) || HidesPadding(pieces[1..])
  {
    var rest := pieces[1..];
    if i :| 0 <= i < |rest| - 1 && EndsInPadding(rest[i]) {
      assert EndsInPadding(pieces[i + 1]);
    }
    if i :| 0 <= i < |pieces| - 1 && EndsInPadding(pieces[i]) && i > 0 {
      assert EndsInPadding(rest[i - 1]);
    }
  }

  lemma SplitOff(p: Text, t: Text)
    requires |p| % 4 == 0 && DecodeQuanta(p + t).Some?
    ensures DecodeQuanta(p).Some? && DecodeQuanta(t).Some?
    ensures DecodeQuanta(p + t).value == DecodeQuanta(p).value + DecodeQuanta(t).value
  {
    DecodeSplits(p, t, |p| / 4);
  }

  // One piece in front of a text.
  lemma FrontPiece(p: Text, t: Text)
    requires p != [] && |p| % 4 == 0 && t != []
    ensures DecodeQuanta(p + t).Some? <==>
            DecodeQuanta(p).Some? && !EndsInPadding(p) && DecodeQuanta(t).Some?
    ensures DecodeQuanta(p + t).Some? ==>
            DecodeQuanta(p + t).value == DecodeQuanta(p).value + DecodeQuanta(t).value
  {
    if DecodeQuanta(p + t).Some? { SplitOff(p, t); }
    if DecodeQuanta(p).Some? {
      var d := DecodeQuanta(p).value;
      PaddingIsShortQuantum(p, d);
      if EndsInPadding(p) {
        PaddingEnds(p, d, t);
      } else if DecodeQuanta(t).Some? {
        DecodeJoins(p, t);
      }
    }
  }

  // A text decodes exactly when, in any cutting of it, every piece decodes and
  // no piece before the last ends in padding; and then the pieces decode to
  // what the text decodes to.
  lemma {:induction false} StrictIff(pieces: seq<Text>)
    requires Cutting(pieces)
    ensures DecodeQuanta(Joined(pieces)).Some? <==> AllDecode(pieces) && !HidesPadding(pieces)
    ensures DecodeQuanta(Joined(pieces)).Some? ==> DecodePieces(pieces) == DecodeQuanta(Joined(pieces))
  {
    AllDecodeOneByOne(pieces);
    if pieces == [] {
    } else if |pieces| == 1 {
      assert pieces[1..] == [];
      assert Joined(pieces) == pieces[0] + [] == pieces[0];
      if DecodeQuanta(pieces[0]).Some? {
        var d := DecodeQuanta(pieces[0]).value;
        assert d + [] == d;
      }
    } else {
      var p, rest := pieces[0], pieces[1..];
      assert rest[0] == pieces[1];
      assert forall i | 0 <= i < |rest| :: rest[i] == pieces[i + 1];
      StrictIff(rest);
      AllDecodeOneByOne(rest);
      HidesFirstOrLater(pieces);
      assert Joined(rest) != [];
      FrontPiece(p, Joined(rest));
    }
  }

  // What decoding in pieces takes beyond what is well-formed: exactly the
  // texts with padding at the end of a piece that is not the last.
  lemma TakesMalformedIff(pieces: seq<Text>)
    requires Cutting(pieces)
    ensures DecodePieces(pieces).Some? && DecodeQuanta(Joined(pieces)).None?
        <==> AllDecode(pieces) && HidesPadding(pieces)
  {
    StrictIff(pieces);
    AllDecodeOneByOne(pieces);
  }

  // --- the pieces the buffer makes ---

  // `raw` is still with the reader; `buf` is in the buffer, without breaks.
  datatype Source = Source(raw: Text, buf: Text)

  const BUFFER: nat := 1024

  // How far a read that has room for so many bytes fills the buffer.
  function Fill(room: nat): (n: nat)
    ensures 4 <= n <= BUFFER
  {
    var n := room / 3 * 4;
    if n < 4 then 4 else if n > BUFFER then BUFFER else n
  }

  function Refill(s: Source, size: nat): (r: Source)
    requires size >= 4
    ensures |r.buf| >= 4 || r.raw == []
    ensures |r.raw| + |r.buf| <= |s.raw| + |s.buf|
    decreases |s.raw|
  {
    if |s.buf| >= 4 || s.raw == [] then s
    else
      var n := if size - |s.buf| < |s.raw| then size - |s.buf| else |s.raw|;
      StripShortens(s.raw[..n]);
      Refill(Source(s.raw[n..], s.buf + Strip(s.raw[..n])), size)
  }

  function Left(s: Source): Text {
    s.buf + Strip(s.raw)
  }

  lemma {:induction false} StripJoins(a: Text, b: Text)
    ensures Strip(a + b) == Strip(a) + Strip(b)
  {
    if a == [] {
      assert a + b == b;
    } else {
      StripJoins(a[1..], b);
      assert (a + b)[1..] == a[1..] + b && (a + b)[0] == a[0];
      Assoc([a[0]], Strip(a[1..]), Strip(b));
    }
  }

  lemma {:induction false} RefillKeeps(s: Source, size: nat)
    requires size >= 4
    ensures Left(Refill(s, size)) == Left(s)
    decreases |s.raw|
  {
    if |s.buf| >= 4 || s.raw == [] {
    } else {
      var n := if size - |s.buf| < |s.raw| then size - |s.buf| else |s.raw|;
      StripJoins(s.raw[..n], s.raw[n..]);
      assert s.raw == s.raw[..n] + s.raw[n..];
      RefillKeeps(Source(s.raw[n..], s.buf + Strip(s.raw[..n])), size);
    }
  }

  // The whole quanta in the buffer.
  function Whole(buf: Text): (n: nat)
    ensures n <= |buf| < n + 4 && n % 4 == 0
  {
    |buf| / 4 * 4
  }

  // What one turn of the decoder finds: nothing, less than a quantum and no
  // more to come, or a piece to decode.
  datatype Turn = End | Short(text: Text) | Piece(text: Text, left: Source)

  function Next(s: Source, room: nat): (t: Turn)
    ensures t.Piece? ==> |t.left.raw| + |t.left.buf| < |s.raw| + |s.buf|
  {
    var r := Refill(s, Fill(room));
    if r.buf == [] then End
    else if |r.buf| < 4 then Short(r.buf)
    else Piece(r.buf[..Whole(r.buf)], Source(r.raw, r.buf[Whole(r.buf)..]))
  }

  // What a limited reader over the decoder yields in all: at most `room`
  // bytes, or an error.
  function Read(s: Source, room: nat): Option<seq<byte>>
    decreases |s.raw| + |s.buf|
  {
    if room == 0 then Some([])
    else
      match Next(s, room)
      case End => Some([])
      case Short(_) => None
      case Piece(p, left) =>
        match DecodeQuanta(p)
        case None => None
        case Some(d) => if |d| >= room then Some(d[..room]) else Glue(d, Read(left, room - |d|))
  }

  // The texts it decodes on the way; a rest that is no quantum is the last.
  function Pieces(s: Source, room: nat): seq<Text>
    decreases |s.raw| + |s.buf|
  {
    if room == 0 then []
    else
      match Next(s, room)
      case End => []
      case Short(t) => [t]
      case Piece(p, left) =>
        match DecodeQuanta(p)
        case None => [p]
        case Some(d) => if |d| >= room then [p] else [p] + Pieces(left, room - |d|)
  }

  lemma NextKeeps(s: Source, room: nat)
    ensures match Next(s, room)
            case End => Left(s) == []
            case Short(t) => Left(s) == t && 0 < |t| < 4
            case Piece(p, left) => Left(s) == p + Left(left) && p != [] && |p| % 4 == 0
  {
    var r := Refill(s, Fill(room));
    RefillKeeps(s, Fill(room));
    if r.raw == [] { assert Left(r) == r.buf; }
    if |r.buf| >= 4 {
      var n := Whole(r.buf);
      assert r.buf == r.buf[..n] + r.buf[n..];
      Assoc(r.buf[..n], r.buf[n..], Strip(r.raw));
    }
  }

  function Front(d: seq<byte>, room: nat): seq<byte> {
    if |d| <= room then d else d[..room]
  }

  lemma FrontGlued(a: seq<byte>, b: seq<byte>, room: nat)
    ensures if |a| < room then a + Front(b, room - |a|) == Front(a + b, room)
            else Front(a + b, room) == a[..room]
  {
  }

  lemma OnePiece(p: Text)
    ensures DecodePieces([p]) == DecodeQuanta(p) && Joined([p]) == p
  {
    assert [p][1..] == [];
    assert p + [] == p;
    if DecodeQuanta(p).Some? { assert DecodeQuanta(p).value + [] == DecodeQuanta(p).value; }
  }

  lemma PieceThenRest(p: Text, rest: seq<Text>)
    ensures Joined([p] + rest) == p + Joined(rest)
    ensures DecodePieces([p] + rest) == if DecodeQuanta(p).None? then None else Glue(DecodeQuanta(p).value, DecodePieces(rest))
    ensures p != [] && |p| % 4 == 0 && Cutting(rest) ==> Cutting([p] + rest)
  {
    var ps := [p] + rest;
    assert ps[1..] == rest;
    assert forall i | 1 <= i < |ps| :: ps[i] == rest[i - 1];
  }

  // The pieces are a cutting of the text ...
  lemma {:induction false} PiecesCut(s: Source, room: nat)
    ensures Cutting(Pieces(s, room))
    decreases |s.raw| + |s.buf|
  {
    NextKeeps(s, room);
    if room > 0 && Next(s, room).Piece? && DecodeQuanta(Next(s, room).text).Some? {
      var p, left := Next(s, room).text, Next(s, room).left;
      var d := DecodeQuanta(p).value;
      if |d| < room {
        PiecesCut(left, room - |d|);
        PieceThenRest(p, Pieces(left, room - |d|));
      }
    }
  }

  // ... of all of it, unless there is no room or a piece does not decode ...
  lemma {:induction false} PiecesJoin(s: Source, room: nat)
    requires DecodePieces(Pieces(s, room)).Some? && |DecodePieces(Pieces(s, room)).value| < room
    ensures Joined(Pieces(s, room)) == Left(s)
    decreases |s.raw| + |s.buf|
  {
    NextKeeps(s, room);
    var t := Next(s, room);
    if t.Short? {
      OnePiece(t.text);
    } else if t.Piece? {
      OnePiece(t.text);
      var d := DecodeQuanta(t.text).value;
      if |d| < room {
        PieceThenRest(t.text, Pieces(t.left, room - |d|));
        PiecesJoin(t.left, room - |d|);
      }
    }
  }

  // ... and reading is decoding them, cut off where the room ends.
  lemma {:induction false} ReadDecodesPieces(s: Source, room: nat)
    ensures var out := DecodePieces(Pieces(s, room));
            Read(s, room) == if out.None? then None else Some(Front(out.value, room))
    decreases |s.raw| + |s.buf|
  {
    NextKeeps(s, room);
    if room > 0 && !Next(s, room).End? {
      var t := Next(s, room);
      OnePiece(t.text);
      if t.Piece? && DecodeQuanta(t.text).Some? {
        var d := DecodeQuanta(t.text).value;
        if |d| < room {
          var ps := Pieces(t.left, room - |d|);
          ReadDecodesPieces(t.left, room - |d|);
          PieceThenRest(t.text, ps);
          if DecodePieces(ps).Some? { FrontGlued(d, DecodePieces(ps).value, room); }
        }
      }
    }
  }

  lemma ReadsOn(s: Source, room: nat, p: Text, left: Source, a: seq<byte>)
    requires room > 0 && Next(s, room) == Piece(p, left) && DecodeQuanta(p) == Some(a)
    ensures Read(s, room) == if |a| >= room then Some(a[..room]) else Glue(a, Read(left, room - |a|))
  {
  }

  lemma FrontOfGlued(a: seq<byte>, b: seq<byte>, room: nat)
    ensures Some(Front(a + b, room)) == if |a| >= room then Some(a[..room]) else Glue(a, Some(Front(b, room - |a|)))
  {
    FrontGlued(a, b, room);
  }

  // Well-formed text is read to its end, or as far as there is room.
  lemma {:induction false} ReadsWellFormed(s: Source, room: nat, d: seq<byte>)
    requires DecodeQuanta(Left(s)) == Some(d)
    ensures Read(s, room) == Some(Front(d, room))
    decreases |s.raw| + |s.buf|
  {
    NextKeeps(s, room);
    if room > 0 && Next(s, room).Piece? {
      var p, left := Next(s, room).text, Next(s, room).left;
      SplitOff(p, Left(left));
      var a, b := DecodeQuanta(p).value, DecodeQuanta(Left(left)).value;
      if |a| < room { ReadsWellFormed(left, room - |a|, b); }
      ReadsOn(s, room, p, left, a);
      FrontOfGlued(a, b, room);
    }
  }

  // --- text without line breaks ---

  predicate Plain(s: Text) {
    forall i | 0 <= i < |s| :: s[i] != CR && s[i] != LF
  }

  function Blocks(s: Text): seq<Text> {
    if s == [] then []
    else if |s| <= BUFFER then [s]
    else [s[..BUFFER]] + Blocks(s[BUFFER..])
  }

  lemma NoPartQuantum(s: Text)
    requires |s| % 4 != 0
    ensures DecodeQuanta(s).None?
  {
    if DecodeQuanta(s).Some? { DecodedLength(s); }
  }

  lemma RefillDone(s: Source, size: nat)
    requires size >= 4 && (|s.buf| >= 4 || s.raw == [])
    ensures Refill(s, size) == s
  {
  }

  lemma RefillFirst(raw: Text, size: nat, n: nat)
    requires size >= 4 && raw != [] && n == if size < |raw| then size else |raw|
    ensures Refill(Source(raw, []), size) == Refill(Source(raw[n..], Strip(raw[..n])), size)
  {
    assert [] + Strip(raw[..n]) == Strip(raw[..n]);
  }

  lemma RefillOnce(s: Text, room: nat)
    requires Plain(s) && s != []
    ensures var n := if |s| < Fill(room) then |s| else Fill(room);
            Refill(Source(s, []), Fill(room)) == Source(s[n..], s[..n])
  {
    var n := if |s| < Fill(room) then |s| else Fill(room);
    StripKeeps(s[..n]);
    RefillFirst(s, Fill(room), n);
    RefillDone(Source(s[n..], s[..n]), Fill(room));
  }

  lemma NextBlock(s: Text, room: nat)
    requires Plain(s) && |s| > BUFFER && room >= 768
    ensures Next(Source(s, []), room) == Piece(s[..BUFFER], Source(s[BUFFER..], []))
  {
    RefillOnce(s, room);
    assert s[..BUFFER][..BUFFER] == s[..BUFFER] && s[..BUFFER][BUFFER..] == [];
  }

  lemma NextLast(s: Text, room: nat)
    requires Plain(s) && 4 <= |s| <= Fill(room)
    ensures Next(Source(s, []), room) == Piece(s[..Whole(s)], Source([], s[Whole(s)..]))
  {
    RefillOnce(s, room);
    assert s[|s|..] == [] && s[..|s|] == s;
  }

  lemma NextShort(buf: Text, room: nat)
    requires |buf| < 4
    ensures Next(Source([], buf), room) == if buf == [] then End else Short(buf)
  {
    RefillDone(Source([], buf), Fill(room));
  }

  predicate SameIfDecoded(a: seq<Text>, b: seq<Text>) {
    DecodePieces(a).Some? || DecodePieces(b).Some? ==> a == b
  }

  lemma PiecesTurn(s: Source, room: nat, p: Text, left: Source, d: seq<byte>)
    requires Next(s, room) == Piece(p, left) && DecodeQuanta(p) == Some(d) && |d| < room
    ensures Pieces(s, room) == [p] + Pieces(left, room - |d|)
    ensures Read(s, room) == Glue(d, Read(left, room - |d|))
  {
  }

  lemma PiecesEnd(s: Source, room: nat, p: Text, left: Source)
    requires Next(s, room) == Piece(p, left) && DecodeQuanta(p).None? && room > 0
    ensures DecodePieces(Pieces(s, room)).None?
  {
    OnePiece(p);
  }

  // What a buffer that is filled once yields, if it decodes.
  lemma LastBlock(s: Text, room: nat)
    requires Plain(s) && 0 < |s| <= Fill(room) && room > 0
    ensures SameIfDecoded(Pieces(Source(s, []), room), [s])
  {
    OnePiece(s);
    if |s| < 4 {
      RefillOnce(s, room);
      assert s[|s|..] == [] && s[..|s|] == s;
    } else {
      NextLast(s, room);
      LastQuanta(s, room);
    }
  }

  lemma LastWhole(s: Source, p: Text, room: nat)
    requires room > 0 && Next(s, room) == Piece(p, Source([], []))
    ensures SameIfDecoded(Pieces(s, room), [p])
  {
    OnePiece(p);
    if DecodeQuanta(p).Some? && |DecodeQuanta(p).value| < room {
      NextShort([], room - |DecodeQuanta(p).value|);
      PiecesTurn(s, room, p, Source([], []), DecodeQuanta(p).value);
      assert [p] + [] == [p];
    }
  }

  lemma LastPart(s: Source, p: Text, rest: Text, room: nat)
    requires room > 0 && Next(s, room) == Piece(p, Source([], rest)) && 0 < |rest| < 4
    requires DecodeQuanta(p).Some? ==> |DecodeQuanta(p).value| < room
    ensures DecodePieces(Pieces(s, room)).None?
  {
    if DecodeQuanta(p).None? {
      PiecesEnd(s, room, p, Source([], rest));
    } else {
      var left := room - |DecodeQuanta(p).value|;
      NextShort(rest, left);
      PiecesTurn(s, room, p, Source([], rest), DecodeQuanta(p).value);
      PieceThenRest(p, [rest]);
      OnePiece(rest);
    }
  }

  lemma LastQuanta(s: Text, room: nat)
    requires 4 <= |s| <= Fill(room) && room > 0
    requires Next(Source(s, []), room) == Piece(s[..Whole(s)], Source([], s[Whole(s)..]))
    ensures SameIfDecoded(Pieces(Source(s, []), room), [s])
  {
    var p, rest := s[..Whole(s)], s[Whole(s)..];
    if rest == [] {
      assert p == s;
      LastWhole(Source(s, []), p, room);
    } else {
      NoPartQuantum(s);
      OnePiece(s);
      if DecodeQuanta(p).Some? { DecodedLength(p); }
      FillIsSmall(|s|, room);
      LastPart(Source(s, []), p, rest, room);
    }
  }

  lemma FillIsFull(room: nat)
    requires room >= 768
    ensures Fill(room) == BUFFER
  {
  }

  lemma FillIsSmall(n: nat, room: nat)
    requires 4 < n <= Fill(room) && n % 4 != 0
    ensures n / 4 * 3 < room
  {
  }

  lemma PlainTail(s: Text, n: nat)
    requires Plain(s) && n <= |s|
    ensures Plain(s[n..])
  {
  }

  function FirstBlocks(s: Text, n: nat): seq<Text>
    requires n * 1024 <= |s|
  {
    if n == 0 then [] else [s[..BUFFER]] + FirstBlocks(s[BUFFER..], n - 1)
  }

  lemma {:induction false} DecodeConcat(a: seq<Text>, b: seq<Text>)
    ensures DecodePieces(a + b) == if DecodePieces(a).None? then None else Glue(DecodePieces(a).value, DecodePieces(b))
  {
    if a == [] {
      assert a + b == b;
      if DecodePieces(b).Some? { assert [] + DecodePieces(b).value == DecodePieces(b).value; }
    } else {
      DecodeConcat(a[1..], b);
      assert (a + b)[1..] == a[1..] + b;
      if DecodeQuanta(a[0]).Some? && DecodePieces(a[1..]).Some? && DecodePieces(b).Some? {
        Assoc(DecodeQuanta(a[0]).value, DecodePieces(a[1..]).value, DecodePieces(b).value);
      }
    }
  }

  lemma SameBehind(f: seq<Text>, a: seq<Text>, b: seq<Text>)
    requires DecodePieces(f).Some? ==> SameIfDecoded(a, b)
    ensures SameIfDecoded(f + a, f + b)
  {
    DecodeConcat(f, a);
    DecodeConcat(f, b);
  }

  // A way to cut text without line breaks when there is so much room.
  type Cutter = (Text, nat) -> seq<Text>

  // It takes the first block off, unless that does not decode.
  predicate TakesBlock(cut: Cutter, s: Text, room: nat)
    requires |s| > BUFFER && room > 768
  {
    match DecodeQuanta(s[..BUFFER])
    case None => DecodePieces(cut(s, room)).None?
    case Some(d) => |d| <= 768 && cut(s, room) == [s[..BUFFER]] + cut(s[BUFFER..], room - |d|)
  }

  ghost predicate TakesBlocks(cut: Cutter) {
    forall s, room: nat | Plain(s) && |s| > BUFFER && room > 768 :: TakesBlock(cut, s, room)
  }

  // What is cut starts with f, as long as f decodes, and goes on with what is
  // cut from t in the room that is left.
  predicate Starts(cut: Cutter, whole: seq<Text>, room: nat, f: seq<Text>, t: Text) {
    match DecodePieces(f)
    case None => DecodePieces(whole).None?
    case Some(e) => |e| <= room && whole == f + cut(t, room - |e|)
  }

  lemma StartsLater(cut: Cutter, p: Text, d: seq<byte>, whole: seq<Text>, room: nat, f: seq<Text>, t: Text)
    requires DecodeQuanta(p) == Some(d) && Starts(cut, whole, room, f, t)
    ensures Starts(cut, [p] + whole, |d| + room, [p] + f, t)
  {
    PieceThenRest(p, f);
    PieceThenRest(p, whole);
    if DecodePieces(f).Some? { Assoc([p], f, cut(t, room - |DecodePieces(f).value|)); }
  }

  lemma StartsNot(cut: Cutter, p: Text, whole: seq<Text>, room: nat, f: seq<Text>, t: Text)
    requires DecodeQuanta(p).None? && DecodePieces(whole).None?
    ensures Starts(cut, whole, room, [p] + f, t)
  {
    PieceThenRest(p, f);
  }

  lemma StartsHere(cut: Cutter, s: Text, room: nat)
    ensures Starts(cut, cut(s, room), room, [], s)
  {
    assert [] + cut(s, room) == cut(s, room);
  }

  lemma FirstOfBlocks(s: Text, n: nat)
    requires n > 0 && n * 1024 <= |s|
    ensures FirstBlocks(s, n) == [s[..BUFFER]] + FirstBlocks(s[BUFFER..], n - 1)
    ensures s[BUFFER..][(n - 1) * 1024..] == s[n * 1024..]
  {
  }

  // With room for n blocks and more, what is cut from a longer text starts with
  // these blocks.
  lemma {:induction false} FrontIsBlocks(cut: Cutter, s: Text, room: nat, n: nat)
    requires TakesBlocks(cut) && Plain(s) && n * 1024 < |s| && room > n * 768
    ensures Starts(cut, cut(s, room), room, FirstBlocks(s, n), s[n * 1024..])
    decreases n
  {
    if n == 0 {
      assert s[0..] == s;
      StartsHere(cut, s, room);
    } else {
      var p, t := s[..BUFFER], s[BUFFER..];
      assert TakesBlock(cut, s, room);
      FirstOfBlocks(s, n);
      PlainTail(s, BUFFER);
      if DecodeQuanta(p).None? {
        StartsNot(cut, p, cut(s, room), room, FirstBlocks(t, n - 1), s[n * 1024..]);
      } else {
        var d := DecodeQuanta(p).value;
        FrontIsBlocks(cut, t, room - |d|, n - 1);
        StartsLater(cut, p, d, cut(t, room - |d|), room - |d|, FirstBlocks(t, n - 1), s[n * 1024..]);
      }
    }
  }

  lemma BlockBytes(p: Text)
    requires |p| == BUFFER
    ensures DecodeQuanta(p).Some? ==> |DecodeQuanta(p).value| <= 768
  {
    if DecodeQuanta(p).Some? { DecodedLength(p); }
  }

  lemma OneBlockMore(p: Text, f: seq<Text>, bytes: nat)
    requires |p| == BUFFER
    requires DecodePieces(f).Some? ==> |DecodePieces(f).value| <= bytes
    ensures DecodePieces([p] + f).Some? ==> |DecodePieces([p] + f).value| <= bytes + 768
  {
    PieceThenRest(p, f);
    BlockBytes(p);
  }

  lemma {:induction false} FirstBlocksBytes(s: Text, n: nat)
    requires n * 1024 <= |s|
    ensures DecodePieces(FirstBlocks(s, n)).Some? ==> |DecodePieces(FirstBlocks(s, n)).value| <= n * 768
    decreases n
  {
    if n == 0 {
    } else {
      FirstOfBlocks(s, n);
      FirstBlocksBytes(s[BUFFER..], n - 1);
      OneBlockMore(s[..BUFFER], FirstBlocks(s[BUFFER..], n - 1), (n - 1) * 768);
    }
  }

  // So what is cut from the whole follows from what is cut from the rest.
  lemma SameAfter(cut: Cutter, whole: seq<Text>, room: nat, f: seq<Text>, t: Text, tail: seq<Text>)
    requires Starts(cut, whole, room, f, t)
    requires DecodePieces(f).Some? ==>
      |DecodePieces(f).value| <= room && SameIfDecoded(cut(t, room - |DecodePieces(f).value|), tail)
    ensures SameIfDecoded(whole, f + tail)
  {
    DecodeConcat(f, tail);
    if DecodePieces(f).Some? { SameBehind(f, cut(t, room - |DecodePieces(f).value|), tail); }
  }

  lemma CutThenTail(cut: Cutter, s: Text, room: nat, n: nat, tail: seq<Text>)
    requires TakesBlocks(cut) && Plain(s) && n * 1024 < |s| && room > n * 768
    requires var f := DecodePieces(FirstBlocks(s, n));
             f.Some? && |f.value| <= n * 768 ==> SameIfDecoded(cut(s[n * 1024..], room - |f.value|), tail)
    ensures SameIfDecoded(cut(s, room), FirstBlocks(s, n) + tail)
  {
    FrontIsBlocks(cut, s, room, n);
    FirstBlocksBytes(s, n);
    SameAfter(cut, cut(s, room), room, FirstBlocks(s, n), s[n * 1024..], tail);
  }

  // The buffer is such a way.
  function Buffered(): Cutter {
    (s: Text, room: nat) => Pieces(Source(s, []), room)
  }

  lemma BufferedIs(s: Text, room: nat)
    ensures Buffered()(s, room) == Pieces(Source(s, []), room)
  {
  }

  lemma BlockTaken(s: Text, room: nat, p: Text, t: Text)
    requires |s| > BUFFER && room > 768 && p == s[..BUFFER] && t == s[BUFFER..]
    requires Next(Source(s, []), room) == Piece(p, Source(t, []))
    ensures TakesBlock(Buffered(), s, room)
  {
    BlockBytes(p);
    BufferedIs(s, room);
    if DecodeQuanta(p).None? {
      PiecesEnd(Source(s, []), room, p, Source(t, []));
    } else {
      var d := DecodeQuanta(p).value;
      PiecesTurn(Source(s, []), room, p, Source(t, []), d);
      BufferedIs(t, room - |d|);
      assert Buffered()(s, room) == [p] + Buffered()(t, room - |d|);
    }
  }

  lemma BufferTakesBlock(s: Text, room: nat)
    requires Plain(s) && |s| > BUFFER && room > 768
    ensures TakesBlock(Buffered(), s, room)
  {
    NextBlock(s, room);
    BlockTaken(s, room, s[..BUFFER], s[BUFFER..]);
  }

  lemma BufferTakesBlocks()
    ensures TakesBlocks(Buffered())
  {
    forall s, room: nat | Plain(s) && |s| > BUFFER && room > 768 ensures TakesBlock(Buffered(), s, room) {
      BufferTakesBlock(s, room);
    }
  }

  lemma {:induction false} BlocksAre(s: Text, n: nat)
    requires n * 1024 < |s| <= n * 1024 + 1024
    ensures Blocks(s) == FirstBlocks(s, n) + [s[n * 1024..]]
    decreases n
  {
    if n == 0 {
      assert s[0..] == s && [] + [s] == [s];
    } else {
      var rest := s[BUFFER..];
      BlocksAre(rest, n - 1);
      assert rest[(n - 1) * 1024..] == s[n * 1024..];
      assert [s[..BUFFER]] + (FirstBlocks(rest, n - 1) + [s[n * 1024..]])
          == [s[..BUFFER]] + FirstBlocks(rest, n - 1) + [s[n * 1024..]];
    }
  }

  // It takes a text of a block or less as one piece.
  ghost predicate TakesRest(cut: Cutter) {
    forall t, room: nat | Plain(t) && 0 < |t| <= BUFFER && room >= 768 :: SameIfDecoded(cut(t, room), [t])
  }

  // Such a way makes blocks of the whole text.
  lemma CutsBlocks(cut: Cutter, s: Text, room: nat, n: nat)
    requires TakesBlocks(cut) && TakesRest(cut)
    requires Plain(s) && n * 1024 < |s| <= n * 1024 + 1024 && room >= n * 768 + 768
    ensures SameIfDecoded(cut(s, room), Blocks(s))
  {
    PlainTail(s, n * 1024);
    BlocksAre(s, n);
    CutThenTail(cut, s, room, n, [s[n * 1024..]]);
  }

  // How many whole blocks come before the last one.
  function BlocksBefore(length: nat, blocks: nat): (n: nat)
    requires 0 < length <= blocks * 1024
    ensures n < blocks && n * 1024 < length <= n * 1024 + 1024
  {
    (length - 1) / 1024
  }

  lemma BufferTakesRest()
    ensures TakesRest(Buffered())
  {
    forall t, room: nat | Plain(t) && 0 < |t| <= BUFFER && room >= 768
      ensures SameIfDecoded(Buffered()(t, room), [t])
    {
      FillIsFull(room);
      LastBlock(t, room);
    }
  }

  // Without line breaks, and with room to spare, the pieces are the blocks of
  // 1024 characters, if either of them all decode.
  lemma PiecesAreBlocks(s: Text, room: nat, blocks: nat)
    requires Plain(s) && |s| <= blocks * 1024 && room >= blocks * 768
    ensures SameIfDecoded(Pieces(Source(s, []), room), Blocks(s))
  {
    if s == [] {
      NextShort([], room);
    } else {
      BufferTakesBlocks();
      BufferTakesRest();
      CutsBlocks(Buffered(), s, room, BlocksBefore(|s|, blocks));
    }
  }

  lemma {:induction false} BlocksCut(s: Text)
    ensures Cutting(Blocks(s)) && Joined(Blocks(s)) == s
  {
    if s == [] {
    } else if |s| <= BUFFER {
      OnePiece(s);
    } else {
      BlocksCut(s[BUFFER..]);
      PieceThenRest(s[..BUFFER], Blocks(s[BUFFER..]));
      assert s == s[..BUFFER] + s[BUFFER..];
    }
  }

  // However it is cut, text decodes to at most three bytes for four characters.
  lemma {:induction false} DecodedPiecesLength(pieces: seq<Text>)
    requires DecodePieces(pieces).Some?
    ensures |DecodePieces(pieces).value| * 4 <= |Joined(pieces)| * 3
  {
    if pieces == [] {
    } else {
      DecodedLength(pieces[0]);
      DecodedPiecesLength(pieces[1..]);
    }
  }
}
