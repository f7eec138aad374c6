/**
 Pulling a file out of an instance and pushing one in. What is pulled inline
 can be pushed back unchanged, and large files never come inline.
 */
module FileTransfer {
  import opened Prelude
  import opened Base64
  import opened Utf8

  const TEXT := "text"
  const BASE64 := "base64"

  // What the target says about the path. Directories have no body.
  datatype Response = Response(kind: string, mode: int, uid: int, gid: int, entries: seq<Text>)

  datatype PullOutput = PullOutput(
    content: Text,
    encoding: string,
    kind: string,
    mode: int,
    uid: int,
    gid: int,
    size: nat,
    staged: Option<seq<byte>>)   // the file written on this host, if any

  datatype PullError = MissingField | EmptyResponse | TargetError | StagingFailed

  datatype PullResult = Pulled(out: PullOutput) | PullFailed(error: PullError)

  // strings.Join(entries, "\n")
  function JoinLines(entries: seq<Text>): Text {
    if entries == [] then []
    else if |entries| == 1 then entries[0]
    else entries[0] + [LF] + JoinLines(entries[1..])
  }

  // A text cut at its line feeds.
  function Lines(s: Text): (parts: seq<Text>)
    ensures parts != []
  {
    if s == [] then [[]]
    else if s[0] == LF then [[]] + Lines(s[1..])
    else
      var rest := Lines(s[1..]);
      [[s[0]] + rest[0]] + rest[1..]
  }

  lemma {:induction false} LinesHaveNoBreak(s: Text)
    ensures forall i | 0 <= i < |Lines(s)| :: LF !in Lines(s)[i]
  {
    if s == [] {
    } else {
      LinesHaveNoBreak(s[1..]);
    }
  }

  lemma {:induction false} LinesOfOne(e: Text)
    requires LF !in e
    ensures Lines(e) == [e]
  {
    if e == [] {
    } else {
      LinesOfOne(e[1..]);
      assert [e[0]] + e[1..] == e;
    }
  }

  lemma {:induction false} FirstLine(e: Text, rest: Text)
    requires LF !in e
    ensures Lines(e + [LF] + rest) == [e] + Lines(rest)
  {
    var s := e + [LF] + rest;
    if e == [] {
      assert s[1..] == rest;
    } else {
      FirstLine(e[1..], rest);
      assert s[1..] == e[1..] + [LF] + rest;
      assert [e[0]] + e[1..] == e;
    }
  }

  // A listing gives the entries of the directory back, in order, exactly if no
  // name has a line feed in it. (An empty directory lists like one with a
  // nameless entry.)
  lemma {:induction false} ListingReadsBackIff(entries: seq<Text>)
    requires entries != []
    ensures Lines(JoinLines(entries)) == entries
        <==> (forall i | 0 <= i < |entries| :: LF !in entries[i])
  {
    LinesHaveNoBreak(JoinLines(entries));
    if forall i | 0 <= i < |entries| :: LF !in entries[i] {
      if |entries| == 1 {
        LinesOfOne(entries[0]);
        assert entries == [entries[0]];
      } else {
        ListingReadsBackIff(entries[1..]);
        FirstLine(entries[0], JoinLines(entries[1..]));
        assert entries == [entries[0]] + entries[1..];
      }
    }
  }

  // filePull. `body`: the file's bytes, None for no body; `fetched`, `read`
  // and `staged`: the outcomes of getting the file, reading it, staging it.
  method FilePull(
    instance: string, path: string, requestedCap: int, configuredCap: int,
    response: Option<Response>, body: Option<seq<byte>>, fetched: bool, read: bool, staged: bool)
    returns (r: PullResult)
    // It succeeds exactly if what it needs works: staging only for a file above
    // the request's cap, or above the configured one if the request has none.
    ensures r.Pulled? <==>
      && instance != "" && path != "" && fetched && response.Some?
      && (body.Some? ==> read)
      && (response.value.kind != "directory"
          && (if body.Some? then |body.value| else 0) > (if requestedCap > 0 then requestedCap else configuredCap)
          ==> staged)
    ensures r.Pulled? ==>
      && var data := if body.Some? then body.value else [];
         && r.out.size == |data|
         && r.out.kind == response.value.kind
         && r.out.mode == response.value.mode
         && r.out.uid == response.value.uid
         && r.out.gid == response.value.gid
         && (response.value.kind == "directory" ==>
              r.out.content == JoinLines(response.value.entries) && r.out.encoding == "text" && r.out.staged.None?)
         // Inline exactly up to the cap: as it is if it looks like text, else in
         // base64, from which it decodes.
         && (response.value.kind != "directory" ==>
              (r.out.staged.None? <==> |data| <= (if requestedCap > 0 then requestedCap else configuredCap)))
         && (response.value.kind != "directory" && r.out.staged.None? ==>
              && r.out.encoding == (if LooksLikeText(data) then "text" else "base64")
              && r.out.content == (if LooksLikeText(data) then data else Encode(data))
              && (r.out.encoding == "base64" ==>
                   Decode(r.out.content) == Some(data) && |r.out.content| == (|data| + 2) / 3 * 4)
              && |r.out.content| <= ((if requestedCap > 0 then requestedCap else configuredCap) + 2) / 3 * 4)
         // Above it nothing inline, and the whole file staged.
         && (response.value.kind != "directory" && r.out.staged.Some? ==>
              r.out.content == [] && r.out.encoding == "" && r.out.staged.value == data)
    // Why it fails.
    ensures r == PullFailed(MissingField) <==> instance == "" || path == ""
    ensures r == PullFailed(EmptyResponse) <==> instance != "" && path != "" && fetched && response.None?
    ensures r == PullFailed(TargetError) <==>
      instance != "" && path != "" && (!fetched || (response.Some? && body.Some? && !read))
  {
    if instance == "" || path == "" { return PullFailed(MissingField); }
    if !fetched { return PullFailed(TargetError); }
    if response.None? { return PullFailed(EmptyResponse); }
    var resp := response.value;
    var data := [];
    if body.Some? {
      if !read { return PullFailed(TargetError); }
      data := body.value;
    }
    var cap := configuredCap;
    if requestedCap > 0 { cap := requestedCap; }
    var out := PullOutput([], "", resp.kind, resp.mode, resp.uid, resp.gid, |data|, None);
    if resp.kind == "directory" {
      out := out.(content := JoinLines(resp.entries), encoding := TEXT);
      return Pulled(out);
    }
    if |data| <= cap {
      var text := IsText(data);
      if text {
        out := out.(content := data, encoding := TEXT);
      } else {
        out := out.(content := Encode(data), encoding := BASE64);
        RoundTrip(data);
      }
      EncodedLenGrows(|data|, cap);
      return Pulled(out);
    }
    if !staged { return PullFailed(StagingFailed); }
    out := out.(staged := Some(data));
    return Pulled(out);
  }

  lemma EncodedLenGrows(m: nat, n: nat)
    requires m <= n
    ensures m <= EncodedLen(m) <= EncodedLen(n)
  {
  }

  datatype PushArgs = PushArgs(data: seq<byte>, uid: int, gid: int, mode: int, kind: string, writeMode: string)

  datatype PushError = NoField | BadContent | BadEncoding | Exists | NotWritten

  datatype PushResult = Written(args: PushArgs) | PushFailed(error: PushError)

  const DEFAULT_MODE := 420 // 0644

  // What the target answers to the write.
  datatype WriteAnswer = Accepted | AlreadyExists | Rejected

  // filePush
  method FilePush(
    instance: string, path: string, content: Text, encoding: string,
    mode: int, uid: int, gid: int, overwrite: bool, answer: WriteAnswer)
    returns (r: PushResult)
    // An empty encoding is plain text, base64 has to be well-formed, and there
    // is no other.
    ensures r == PushFailed(NoField) <==> instance == "" || path == ""
    ensures r == PushFailed(BadEncoding) <==>
      instance != "" && path != "" && encoding != "" && encoding != "text" && encoding != "base64"
    ensures r == PushFailed(BadContent) <==>
      instance != "" && path != "" && encoding == "base64" && Decode(content).None?
    ensures r.Written? <==>
      && instance != "" && path != "" && answer.Accepted?
      && (encoding == "" || encoding == "text" || (encoding == "base64" && Decode(content).Some?))
    ensures r.Written? ==>
      && (encoding != "base64" ==> r.args.data == content)
      && (encoding == "base64" ==> Decode(content) == Some(r.args.data))
      && r.args.uid == uid && r.args.gid == gid && r.args.kind == "file"
      && r.args.mode == (if mode == 0 then 420 else mode)   // 0644
      && r.args.writeMode == (if overwrite then "overwrite" else "")
    // An existing destination is reported as such exactly if it may not be replaced.
    ensures r == PushFailed(Exists) <==>
      && instance != "" && path != "" && answer.AlreadyExists? && !overwrite
      && (encoding == "" || encoding == "text" || (encoding == "base64" && Decode(content).Some?))
  {
    if instance == "" || path == "" { return PushFailed(NoField); }
    var data;
    if encoding == "" || encoding == TEXT {
      data := content;
    } else if encoding == BASE64 {
      var decoded := Decode(content);
      if decoded.None? { return PushFailed(BadContent); }
      data := decoded.value;
    } else {
      return PushFailed(BadEncoding);
    }
    var m := mode;
    if m == 0 { m := DEFAULT_MODE; }
    var writeMode := "";
    if overwrite { writeMode := "overwrite"; }
    var args := PushArgs(data, uid, gid, m, "file", writeMode);
    match answer
    case Accepted => return Written(args);
    case AlreadyExists => return PushFailed(if overwrite then NotWritten else Exists);
    case Rejected => return PushFailed(NotWritten);
  }

  // Pull, then push what came back: the target gets the bytes it had.
  method PullThenPush(data: seq<byte>, cap: int, instance: string, path: string) returns (again: seq<byte>)
    requires |data| <= cap && instance != "" && path != ""
    ensures again == data
  {
    var resp := Response("file", 0, 0, 0, []);
    var pulled := FilePull(instance, path, 0, cap, Some(resp), Some(data), true, true, true);
    var pushed := FilePush(instance, path, pulled.out.content, pulled.out.encoding, 0, 0, 0, true, Accepted);
    return pushed.args.data;
  }

  // --- through JSON ---

  lemma {:induction false} EncodedIsAscii(d: seq<byte>)
    ensures forall i | 0 <= i < |Encode(d)| :: Encode(d)[i] < 0x80
  {
    if |d| <= 2 {
    } else {
      EncodedIsAscii(d[3..]);
    }
  }

  // JSON is Unicode text (section 8.1 of RFC 8259): base64 passes unchanged.
  lemma Base64Survives(d: seq<byte>)
    ensures Coerced(Encode(d)) == Encode(d)
  {
    EncodedIsAscii(d);
    AsciiIsWellFormed(Encode(d));
    CoercedIff(Encode(d));
  }

  // Pull, send what came back as JSON, and push that: the target gets the bytes
  // it had exactly if they were not taken for text or are well-formed.
  method PullThroughJson(data: seq<byte>, cap: int, instance: string, path: string) returns (again: seq<byte>)
    requires |data| <= cap && instance != "" && path != ""
    ensures again == data <==> (LooksLikeText(data) ==> WellFormed(data))
  {
    var resp := Response("file", 0, 0, 0, []);
    var pulled := FilePull(instance, path, 0, cap, Some(resp), Some(data), true, true, true);
    CoercedIff(data);
    Base64Survives(data);
    var content := Coerced(pulled.out.content);
    var pushed := FilePush(instance, path, content, pulled.out.encoding, 0, 0, 0, true, Accepted);
    return pushed.args.data;
  }
}
