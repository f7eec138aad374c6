/**
 Importing an ISO volume: decode a bounded base64 artifact into a temporary
 file, check the ISO9660 descriptor (section 8.4 of ECMA-119), upload the
 file, wait, and always close and remove it.
 */
module IsoImport {
  import opened Prelude
  import opened Base64
  import opened Base64Stream
  import opened Wait

  const MAX_BYTES: nat := 67108864          // 64 MiB
  const DESCRIPTOR_OFFSET: nat := 32768     // sector 16
  const DESCRIPTOR: seq<byte> := [1, 67, 68, 48, 48, 49, 1]  // type 1, "CD001", version 1

  class TempFile {
    var data: seq<byte>
    var pos: nat
    var open: bool
    var present: bool

    constructor ()
      ensures data == [] && pos == 0 && open && present
    {
      data, pos, open, present := [], 0, true, true;
    }
  }

  datatype Upload = Upload(pool: string, name: string, content: seq<byte>)

  // This host and its connection to the target. `works` says which of the
  // calls that may fail succeed.
  class Host {
    const works: nat -> bool
    const removes: bool            // removing a file works
    var clock: nat
    var temps: set<TempFile>       // every temporary file made so far
    var uploads: seq<Upload>       // every upload that was started

    constructor (w: nat -> bool, r: bool)
      ensures temps == {} && uploads == [] && works == w && removes == r
    {
      works, removes := w, r;
      clock, temps, uploads := 0, {}, [];
    }

    ghost predicate NothingFails() {
      forall n: nat :: works(n)
    }

    method Try() returns (ok: bool)
      modifies `clock
      ensures NothingFails() ==> ok
    {
      ok := works(clock);
      clock := clock + 1;
    }

    // file.Close, os.Remove
    method Discard(f: TempFile)
      modifies f`open, f`present
      ensures Discarded(f)
    {
      f.open := false;
      if removes { f.present := false; }
    }

    ghost predicate Discarded(f: TempFile)
      reads f
    {
      !f.open && (removes ==> !f.present)
    }
  }

  // What the decoder, limited to one byte more than is allowed, yields.
  function Decoded(encoded: Text): Option<seq<byte>> {
    Read(Source(encoded, []), MAX_BYTES + 1)
  }

  // What the import makes of the text, if it takes it. What that means is
  // `TakesExactly`, `TakesWellFormedIff` and `TakesMalformedIff`.
  function Artifact(encoded: Text): Option<seq<byte>> {
    if |encoded| > EncodedLen(MAX_BYTES) then None
    else if Decoded(encoded).Some? && |Decoded(encoded).value| > MAX_BYTES then None
    else Decoded(encoded)
  }

  // io.Copy of the limited decoder. It stops at the limit, at the end, or at
  // the first corrupt piece.
  method CopyDecoded(h: Host, f: TempFile, encoded: Text) returns (ok: bool)
    requires f.open && f.data == []
    modifies f`data, h`clock
    ensures |f.data| <= MAX_BYTES + 1
    ensures ok ==> Decoded(encoded) == Some(f.data)
    ensures h.NothingFails() && Decoded(encoded).Some? ==> ok
  {
    var source := Source(encoded, []);
    var room: nat := MAX_BYTES + 1;
    GlueUnits([], Read(source, room));
    while room > 0
      invariant room + |f.data| == MAX_BYTES + 1
      invariant Decoded(encoded) == Glue(f.data, Read(source, room))
      decreases |source.raw| + |source.buf|
    {
      GlueUnits(f.data, None);
      var turn := Next(source, room);
      if turn.End? { return true; }
      if turn.Short? { return false; }
      var d := DecodeQuanta(turn.text);
      if d.None? { return false; }
      var wrote := h.Try();
      if !wrote { return false; }
      var chunk := if |d.value| >= room then d.value[..room] else d.value;
      GlueAssociates(f.data, chunk, Read(turn.left, room - |chunk|));
      GlueUnits(chunk, None);
      f.data := f.data + chunk;
      source, room := turn.left, room - |chunk|;
    }
    GlueUnits(f.data, None);
    ok := true;
  }

  lemma GlueUnits(a: seq<byte>, b: Option<seq<byte>>)
    ensures Glue([], b) == b && Glue(a, Some([])) == Some(a)
  {
    if b.Some? { assert [] + b.value == b.value; }
    assert a + [] == a;
  }

  lemma GlueAssociates(a: seq<byte>, b: seq<byte>, c: Option<seq<byte>>)
    ensures Glue(a, Glue(b, c)) == Glue(a + b, c)
  {
    if c.Some? { assert a + (b + c.value) == a + b + c.value; }
  }

  // decodeISOArtifact. On success the file is open at its start and holds the
  // artifact; on failure whatever was made is discarded.
  method DecodeISOArtifact(h: Host, encoded: Text) returns (file: TempFile?)
    modifies h`clock, h`temps
    ensures old(h.temps) <= h.temps
    ensures forall f | f in h.temps && f !in old(h.temps) && f != file :: fresh(f) && h.Discarded(f)
    ensures file != null ==>
      && fresh(file) && file in h.temps && file.open && file.pos == 0
      && Artifact(encoded) == Some(file.data)
      && |encoded| <= 89478488 && |file.data| <= 67108864
    ensures h.NothingFails() && Artifact(encoded).Some? ==> file != null
  {
    if |encoded| > EncodedLen(MAX_BYTES) { return null; }
    var made := h.Try();
    if !made { return null; }
    var f := new TempFile();
    h.temps := h.temps + {f};
    var copied := CopyDecoded(h, f, encoded);
    if !copied || |f.data| > MAX_BYTES {
      h.Discard(f);
      return null;
    }
    var rewound := h.Try();
    if !rewound {
      h.Discard(f);
      return null;
    }
    f.pos := 0;
    file := f;
  }

  predicate IsIso(data: seq<byte>) {
    |data| >= DESCRIPTOR_OFFSET + 7 && data[DESCRIPTOR_OFFSET..DESCRIPTOR_OFFSET + 7] == DESCRIPTOR
  }

  // validateISOArtifact
  method ValidateISOArtifact(h: Host, file: TempFile) returns (ok: bool)
    modifies h`clock, file`pos
    ensures ok ==>
      && |file.data| >= 32775 && file.data[32768..32775] == [1, 67, 68, 48, 48, 49, 1]
      && file.pos == 0
    ensures h.NothingFails() && |file.data| >= 32775 && file.data[32768..32775] == [1, 67, 68, 48, 48, 49, 1] ==> ok
  {
    var read := h.Try();
    if !read || |file.data| < DESCRIPTOR_OFFSET + 7 { return false; }
    var descriptor := file.data[DESCRIPTOR_OFFSET..DESCRIPTOR_OFFSET + 7];
    if descriptor != DESCRIPTOR { return false; }
    ok := h.Try();
    if ok { file.pos := 0; }
  }

  // --- what is taken ---

  // Exactly this is taken: text within the length limit whose pieces, as the
  // buffer makes them, decode one by one to an artifact within the limit.
  lemma TakesExactly(s: Text, d: seq<byte>)
    ensures Artifact(s) == Some(d) <==>
            && |s| <= EncodedLen(MAX_BYTES)
            && |d| <= MAX_BYTES
            && DecodePieces(Pieces(Source(s, []), MAX_BYTES + 1)) == Some(d)
  {
    ReadDecodesPieces(Source(s, []), MAX_BYTES + 1);
  }

  lemma NothingBuffered(s: Text)
    ensures Left(Source(s, [])) == Strip(s)
  {
  }

  // A well-formed encoding of an artifact within the limit is taken exactly if
  // the text, line breaks included, is no longer than the length check allows.
  lemma TakesWellFormedIff(s: Text, d: seq<byte>)
    requires Decode(s) == Some(d) && |d| <= 67108864
    ensures Artifact(s) == if |s| <= 89478488 then Some(d) else None
  {
    NothingBuffered(s);
    ReadsWellFormed(Source(s, []), MAX_BYTES + 1, d);
  }

  // The canonical encoding of every artifact within the limit is taken ...
  lemma CanonicalIsAccepted(d: seq<byte>)
    requires |d| <= 67108864
    ensures Artifact(Encode(d)) == Some(d)
  {
    RoundTrip(d);
    TakesWellFormedIff(Encode(d), d);
  }

  // ... but with one line break in it the largest artifact is refused.
  lemma LineBreakIsRefused(d: seq<byte>)
    requires |d| == 67108864
    ensures Decode([LF] + Encode(d)) == Some(d) && Artifact([LF] + Encode(d)).None?
  {
    RoundTrip(d);
    assert ([LF] + Encode(d))[1..] == Encode(d);
    EncodedLength(d);
    TakesWellFormedIff([LF] + Encode(d), d);
  }

  // Malformed text is taken exactly if it passes both length checks, all its
  // pieces decode, and one before the last ends in padding.
  lemma TakesMalformedIff(s: Text)
    ensures Artifact(s).Some? && Decode(s).None? <==>
            var pieces := Pieces(Source(s, []), MAX_BYTES + 1);
            && |s| <= EncodedLen(MAX_BYTES)
            && AllDecode(pieces)
            && HidesPadding(pieces)
            && DecodePieces(pieces).Some? && |DecodePieces(pieces).value| <= MAX_BYTES
  {
    var source := Source(s, []);
    var pieces := Pieces(source, MAX_BYTES + 1);
    NothingBuffered(s);
    AllDecodeOneByOne(pieces);
    if DecodePieces(pieces).Some? {
      TakesExactly(s, DecodePieces(pieces).value);
      if |DecodePieces(pieces).value| <= MAX_BYTES {
        PiecesJoin(source, MAX_BYTES + 1);
        PiecesCut(source, MAX_BYTES + 1);
        StrictIff(pieces);
      }
    }
    if Artifact(s).Some? { TakesExactly(s, Artifact(s).value); }
  }

  // 64 MiB fill so many buffers and leave room for 257 bytes, the one too many
  // included. With that much room the buffer is filled with 340 characters.
  const FULL_BLOCKS: nat := 87381
  const LIMIT_FILL: nat := 340

  const FULL_TEXT: nat := 89478144   // FULL_BLOCKS * 1024
  const FULL_BYTES: nat := 67108608  // FULL_BLOCKS * 768

  // No block in front of the last hides padding.
  predicate FullFront(s: Text)
    requires FULL_TEXT <= |s|
  {
    match DecodePieces(FirstBlocks(s, FULL_BLOCKS))
    case None => false
    case Some(d) => |d| == FULL_BYTES
  }

  // The pieces of a text without line breaks: the blocks of 1024 characters,
  // but at the very end of the limit the last block is cut in two.
  function PlainPieces(s: Text): seq<Text> {
    if |s| > FULL_TEXT + LIMIT_FILL && FullFront(s) then
      FirstBlocks(s, FULL_BLOCKS) + [s[FULL_TEXT..][..LIMIT_FILL], s[FULL_TEXT..][LIMIT_FILL..]]
    else
      Blocks(s)
  }

  lemma LimitFill(t: Text)
    requires Plain(t) && LIMIT_FILL < |t|
    ensures Next(Source(t, []), 257) == Piece(t[..LIMIT_FILL], Source(t[LIMIT_FILL..], []))
  {
    RefillOnce(t, 257);
    assert t[..LIMIT_FILL][..LIMIT_FILL] == t[..LIMIT_FILL] && t[..LIMIT_FILL][LIMIT_FILL..] == [];
  }

  lemma LimitBytes(p: Text)
    requires |p| == LIMIT_FILL && DecodeQuanta(p).Some?
    ensures 253 <= |DecodeQuanta(p).value| <= 255
  {
    DecodedLength(p);
  }

  lemma LimitTail(t: Text)
    requires Plain(t) && LIMIT_FILL < |t| <= LIMIT_FILL + 4
    ensures SameIfDecoded(Pieces(Source(t, []), 257), [t[..LIMIT_FILL], t[LIMIT_FILL..]])
  {
    var p, rest := t[..LIMIT_FILL], t[LIMIT_FILL..];
    LimitFill(t);
    assert [p] + [rest] == [p, rest];
    PieceThenRest(p, [rest]);
    if DecodeQuanta(p).None? {
      PiecesEnd(Source(t, []), 257, p, Source(rest, []));
    } else {
      var d := DecodeQuanta(p).value;
      LimitBytes(p);
      PiecesTurn(Source(t, []), 257, p, Source(rest, []), d);
      PlainTail(t, LIMIT_FILL);
      LastBlock(rest, 257 - |d|);
      SameBehind([p], Pieces(Source(rest, []), 257 - |d|), [rest]);
    }
  }

  // What is left for the last block.
  function LastRoom(front: nat): nat
    requires front <= FULL_BYTES
  {
    MAX_BYTES + 1 - front
  }

  lemma LastFill(front: nat)
    requires front <= FULL_BYTES
    ensures LastRoom(front) >= 257 && Fill(LastRoom(front)) >= LIMIT_FILL
    ensures front == FULL_BYTES ==> LastRoom(front) == 257
    ensures front < FULL_BYTES ==> Fill(LastRoom(front)) >= LIMIT_FILL + 4
  {
  }

  lemma LastPieces(s: Text, t: Text, front: nat)
    requires Plain(s) && FULL_TEXT < |s| <= EncodedLen(MAX_BYTES) && t == s[FULL_TEXT..] && front <= FULL_BYTES
    ensures SameIfDecoded(
      Pieces(Source(t, []), LastRoom(front)),
      if |t| > LIMIT_FILL && front == FULL_BYTES then [t[..LIMIT_FILL], t[LIMIT_FILL..]] else [t])
  {
    PlainTail(s, FULL_TEXT);
    LastFill(front);
    if |t| > LIMIT_FILL && front == FULL_BYTES { LimitTail(t); } else { LastBlock(t, LastRoom(front)); }
  }

  lemma LongPlainPieces(s: Text)
    requires Plain(s) && FULL_TEXT < |s| <= EncodedLen(MAX_BYTES)
    ensures SameIfDecoded(Pieces(Source(s, []), MAX_BYTES + 1), PlainPieces(s))
  {
    var t, f := s[FULL_TEXT..], DecodePieces(FirstBlocks(s, FULL_BLOCKS));
    var tail := if |t| > LIMIT_FILL && FullFront(s) then [t[..LIMIT_FILL], t[LIMIT_FILL..]] else [t];
    BufferTakesBlocks();
    BlocksAre(s, FULL_BLOCKS);
    if f.Some? && |f.value| <= FULL_BYTES {
      LastPieces(s, t, |f.value|);
      BufferedIs(t, LastRoom(|f.value|));
    }
    CutThenTail(Buffered(), s, MAX_BYTES + 1, FULL_BLOCKS, tail);
    BufferedIs(s, MAX_BYTES + 1);
  }

  lemma PiecesOfPlain(s: Text)
    requires Plain(s) && |s| <= EncodedLen(MAX_BYTES)
    ensures SameIfDecoded(Pieces(Source(s, []), MAX_BYTES + 1), PlainPieces(s))
  {
    if |s| <= FULL_TEXT {
      PiecesAreBlocks(s, MAX_BYTES + 1, FULL_BLOCKS);
    } else {
      LongPlainPieces(s);
    }
  }

  // So a text without line breaks is malformed and taken exactly if it passes
  // the length checks, these pieces of it decode, and one before the last ends
  // in padding.
  lemma TakesMalformedPlainIff(s: Text)
    requires Plain(s)
    ensures Artifact(s).Some? && Decode(s).None? <==>
            && |s| <= EncodedLen(MAX_BYTES)
            && AllDecode(PlainPieces(s))
            && HidesPadding(PlainPieces(s))
            && DecodePieces(PlainPieces(s)).Some? && |DecodePieces(PlainPieces(s)).value| <= MAX_BYTES
  {
    TakesMalformedIff(s);
    if |s| <= EncodedLen(MAX_BYTES) { PiecesOfPlain(s); }
    AllDecodeOneByOne(Pieces(Source(s, []), MAX_BYTES + 1));
    AllDecodeOneByOne(PlainPieces(s));
  }

  // Short of the last 344 characters of the limit these are just the blocks,
  // and the second length check never fails.
  lemma TakesMalformedBlocksIff(s: Text)
    requires Plain(s) && |s| <= FULL_TEXT
    ensures Artifact(s).Some? && Decode(s).None? <==> AllDecode(Blocks(s)) && HidesPadding(Blocks(s))
  {
    TakesMalformedPlainIff(s);
    AllDecodeOneByOne(Blocks(s));
    BlocksCut(s);
    if AllDecode(Blocks(s)) { DecodedPiecesLength(Blocks(s)); }
  }

  // --- malformed text that is taken ---

  function Breaks(n: nat): Text {
    if n == 0 then [] else [LF] + Breaks(n - 1)
  }

  lemma {:induction false} BreaksVanish(n: nat)
    ensures |Breaks(n)| == n && Strip(Breaks(n)) == []
  {
    if n == 0 {
    } else {
      BreaksVanish(n - 1);
      assert ([LF] + Breaks(n - 1))[1..] == Breaks(n - 1);
    }
  }

  const PADDED: Text := [81, 81, 61, 61]     // "QQ==", for 65
  const FULL: Text := [81, 85, 74, 68]       // "QUJD", for 65, 66, 67

  lemma PaddedAndFull()
    ensures Plain(PADDED) && Plain(FULL)
    ensures DecodeQuanta(PADDED) == Some([65]) && DecodeQuanta(FULL) == Some([65, 66, 67])
  {
    assert Bytes(16, 16, 0, 0)[..1] == [65];
    assert Bytes(16, 20, 9, 3) == [65, 66, 67];
    LastQuantum(PADDED);
    LastQuantum(FULL);
  }

  lemma LastTurn(room: nat)
    requires room > 768
    ensures Read(Source(FULL, []), room) == Some([65, 66, 67])
  {
    PaddedAndFull();
    NextLast(FULL, room);
    assert FULL[..4] == FULL && FULL[4..] == [];
    NextShort([], room - 3);
    assert Read(Source([], []), room - 3) == Some([]);
    assert [65, 66, 67] + [] == [65, 66, 67];
  }

  lemma FirstTurn(front: Text, room: nat)
    requires |front| == BUFFER && Strip(front) == PADDED && room > 768
    ensures Next(Source(front + FULL, []), room) == Piece(PADDED, Source(FULL, []))
  {
    var s := front + FULL;
    assert s[..BUFFER] == front && s[BUFFER..] == FULL;
    RefillFirst(s, BUFFER, BUFFER);
    RefillDone(Source(FULL, PADDED), BUFFER);
    assert PADDED[..4] == PADDED && PADDED[4..] == [];
  }

  lemma TwoTurns(front: Text, s: Text)
    requires |front| == BUFFER && Strip(front) == PADDED && s == front + FULL
    ensures Decoded(s) == Some([65] + [65, 66, 67])
  {
    FirstTurn(front, MAX_BYTES + 1);
    LastTurn(MAX_BYTES);
    assert DecodeQuanta(PADDED) == Some([65]) by { PaddedAndFull(); }
    PiecesTurn(Source(s, []), MAX_BYTES + 1, PADDED, Source(FULL, []), [65]);
  }

  lemma StripsToPadded(breaks: nat)
    ensures |PADDED + Breaks(breaks)| == 4 + breaks && Strip(PADDED + Breaks(breaks)) == PADDED
  {
    PaddedAndFull();
    BreaksVanish(breaks);
    StripKeeps(PADDED);
    StripJoins(PADDED, Breaks(breaks));
    assert PADDED + [] == PADDED;
  }

  lemma IsMalformed(front: Text)
    requires Strip(front) == PADDED
    ensures Decode(front + FULL).None?
  {
    PaddedAndFull();
    StripKeeps(FULL);
    StripJoins(front, FULL);
    PaddingEnds(PADDED, [65], FULL);
  }

  // "QQ==", line breaks up to the end of the buffer, and "QUJD": not base64,
  // and taken for four bytes.
  lemma HiddenPaddingIsTaken(breaks: nat)
    requires breaks == 1020
    ensures var s := PADDED + Breaks(breaks) + FULL;
            Decode(s).None? && Artifact(s) == Some([65, 65, 66, 67])
  {
    var front := PADDED + Breaks(breaks);
    StripsToPadded(breaks);
    IsMalformed(front);
    TwoTurns(front, front + FULL);
    assert [65] + [65, 66, 67] == [65, 65, 66, 67];
  }

  // That is not an accident of small texts: every artifact of more than 767
  // bytes has a malformed text that is taken for it. The canonical text of its
  // first 767 bytes fills the buffer and ends in padding; the canonical text of
  // the rest follows.
  const FRONT: nat := 767

  function MalformedText(d: seq<byte>): Text
    requires |d| > FRONT
  {
    Encode(d[..FRONT]) + Encode(d[FRONT..])
  }

  lemma EncodedIsPlain(d: seq<byte>)
    ensures Plain(Encode(d)) && DecodeQuanta(Encode(d)) == Some(d) && |Encode(d)| == EncodedLen(|d|)
  {
    EncodeHasNoBreaks(d);
    QuantaRoundTrip(d);
    EncodedLength(d);
  }

  lemma MalformedTextIsMalformed(d: seq<byte>)
    requires |d| > FRONT
    ensures Plain(MalformedText(d)) && Decode(MalformedText(d)).None?
    ensures |MalformedText(d)| == BUFFER + EncodedLen(|d| - FRONT)
  {
    EncodedIsPlain(d[..FRONT]);
    EncodedIsPlain(d[FRONT..]);
    PaddingEnds(Encode(d[..FRONT]), d[..FRONT], Encode(d[FRONT..]));
    StripKeeps(MalformedText(d));
  }

  lemma BlockIsNext(p: Text, t: Text, room: nat)
    requires Plain(p) && Plain(t) && |p| == BUFFER && t != [] && room >= 768
    ensures Next(Source(p + t, []), room) == Piece(p, Source(t, []))
  {
    assert (p + t)[..BUFFER] == p && (p + t)[BUFFER..] == t;
    NextBlock(p + t, room);
  }

  lemma CanonicalIsRead(d: seq<byte>, t: Text, room: nat)
    requires t == Encode(d) && |d| <= room
    ensures Read(Source(t, []), room) == Some(d)
  {
    EncodedIsPlain(d);
    StripKeeps(t);
    NothingBuffered(t);
    ReadsWellFormed(Source(t, []), room, d);
  }

  lemma TurnThenRest(s: Source, room: nat, p: Text, left: Source, a: seq<byte>, b: seq<byte>)
    requires Next(s, room) == Piece(p, left) && DecodeQuanta(p) == Some(a) && |a| < room
    requires Read(left, room - |a|) == Some(b)
    ensures Read(s, room) == Some(a + b)
  {
  }

  lemma BlockThenRest(p: Text, a: seq<byte>, t: Text, b: seq<byte>, room: nat)
    requires Plain(p) && |p| == BUFFER && DecodeQuanta(p) == Some(a)
    requires Plain(t) && t != [] && room >= 768 && |a| < room
    requires Read(Source(t, []), room - |a|) == Some(b)
    ensures Read(Source(p + t, []), room) == Some(a + b)
  {
    var s, left := Source(p + t, []), Source(t, []);
    assert Next(s, room) == Piece(p, left) by { BlockIsNext(p, t, room); }
    TurnThenRest(s, room, p, left, a, b);
  }

  lemma RestIsRead(b: seq<byte>, room: nat)
    requires b != [] && |b| <= room
    ensures Plain(Encode(b)) && Encode(b) != [] && Read(Source(Encode(b), []), room) == Some(b)
  {
    EncodedIsPlain(b);
    CanonicalIsRead(b, Encode(b), room);
  }

  lemma PartsAreRead(a: seq<byte>, b: seq<byte>, room: nat)
    requires EncodedLen(|a|) == BUFFER && room >= 768 && b != [] && |a| + |b| < room
    ensures Read(Source(Encode(a) + Encode(b), []), room) == Some(a + b)
  {
    EncodedIsPlain(a);
    RestIsRead(b, room - |a|);
    BlockThenRest(Encode(a), a, Encode(b), b, room);
  }

  lemma MalformedTextFits(n: nat)
    requires FRONT < n <= MAX_BYTES
    ensures BUFFER + EncodedLen(n - FRONT) <= EncodedLen(MAX_BYTES)
  {
  }

  lemma EveryArtifactHasMalformedText(d: seq<byte>)
    requires 767 < |d| <= 67108864
    ensures Decode(MalformedText(d)).None? && Artifact(MalformedText(d)) == Some(d)
  {
    MalformedTextIsMalformed(d);
    MalformedTextFits(|d|);
    PartsAreRead(d[..FRONT], d[FRONT..], MAX_BYTES + 1);
    assert d[..FRONT] + d[FRONT..] == d;
  }

  // So every ISO within the limit can be imported from text that is not base64.
  lemma MalformedIsoIsImported(d: seq<byte>)
    requires 32775 <= |d| <= 67108864 && d[32768..32775] == [1, 67, 68, 48, 48, 49, 1]
    ensures var s := MalformedText(d);
            Decode(s).None? && Artifact(s) == Some(d) && IsIso(Artifact(s).value)
  {
    EveryArtifactHasMalformedText(d);
  }

  // --- the two length checks ---

  // Whatever passes the first check decodes, however it is cut, to at most two
  // bytes more than are allowed.
  lemma LengthCheckIsTight(encoded: Text, pieces: seq<Text>)
    requires |encoded| <= 89478488
    requires Joined(pieces) == Strip(encoded) && DecodePieces(pieces).Some?
    ensures |DecodePieces(pieces).value| <= 67108866
  {
    StripShortens(encoded);
    DecodedPiecesLength(pieces);
  }

  lemma SameEncodedLen(n: nat)
    requires n == MAX_BYTES + 2
    ensures EncodedLen(n) == EncodedLen(MAX_BYTES)
  {
  }

  lemma ReadsTooMuch(s: Text, d: seq<byte>)
    requires Decode(s) == Some(d) && |d| > MAX_BYTES
    ensures Artifact(s).None?
  {
    NothingBuffered(s);
    ReadsWellFormed(Source(s, []), MAX_BYTES + 1, d);
  }

  // The two bytes are real: there is text that passes the first check and
  // decodes to 67108866 bytes, so the second check is needed.
  lemma LengthCheckIsNotEnough(d: seq<byte>)
    requires |d| == 67108866
    ensures |Encode(d)| <= 89478488
    ensures Decode(Encode(d)) == Some(d) && Artifact(Encode(d)).None?
  {
    RoundTrip(d);
    SameEncodedLen(|d|);
    ReadsTooMuch(Encode(d), d);
  }

  datatype Result = Refused | Replied(reply: Reply)

  // storageVolumeImportISO. `accepted`: the target takes the upload;
  // `reply`: how waiting for the operation ends, "running" included.
  method StorageVolumeImportISO(h: Host, pool: string, name: string, artifact: Text, accepted: bool, reply: Reply)
    returns (r: Result)
    modifies h`clock, h`temps, h`uploads
    // Every temporary file made here is closed and removed, on every path.
    ensures old(h.temps) <= h.temps
    ensures forall f | f in h.temps && f !in old(h.temps) :: fresh(f) && h.Discarded(f)
    // At most one upload, and only of a whole valid artifact from its start.
    ensures h.uploads == old(h.uploads) ||
      (&& pool != "" && name != ""
       && var d := Artifact(artifact);
          && d.Some? && 32775 <= |d.value| <= 67108864
          && d.value[32768..32775] == [1, 67, 68, 48, 48, 49, 1]
          && h.uploads == old(h.uploads) + [Upload(pool, name, d.value)])
    // Success is reported only after an upload.
    ensures r.Replied? ==> |h.uploads| == |old(h.uploads)| + 1 && r.reply == reply && accepted
    // When nothing fails, the import succeeds exactly for what the decoder makes
    // an ISO of ...
    ensures h.NothingFails() && accepted && pool != "" && name != "" ==>
      (r == Replied(reply) <==> Artifact(artifact).Some? && IsIso(Artifact(artifact).value))
    // ... so a text that decodes to an ISO within the limit is imported exactly
    // if it is no longer than the canonical text of the largest one.
    ensures h.NothingFails() && accepted && pool != "" && name != "" ==>
      match Decode(artifact)
      case Some(d) =>
        32775 <= |d| <= 67108864 && d[32768..32775] == [1, 67, 68, 48, 48, 49, 1] ==>
          (r == Replied(reply) <==> |artifact| <= 89478488)
      case None => true
  {
    if pool == "" || name == "" || artifact == [] { return Refused; }
    if Decode(artifact).Some? && |Decode(artifact).value| <= MAX_BYTES {
      TakesWellFormedIff(artifact, Decode(artifact).value);
    }
    var file := DecodeISOArtifact(h, artifact);
    if file == null { return Refused; }
    var valid := ValidateISOArtifact(h, file);
    if !valid {
      h.Discard(file);
      return Refused;
    }
    h.uploads := h.uploads + [Upload(pool, name, file.data[file.pos..])];
    if !accepted {
      h.Discard(file);
      return Refused;
    }
    r := Replied(reply);
    h.Discard(file);
  }
}
