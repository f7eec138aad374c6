/**
 The bounded console log: read one byte more than the limit, in the pieces the
 reader gives, and say whether there was more. The limit is a signed 64-bit
 integer and adding one to the largest wraps around.
 */
module ConsoleLog {
  import opened Prelude

  const DEFAULT_LIMIT: int := 64 * 1024

  function EffectiveLimit(maxBytes: int64): (limit: int64)
    ensures limit > 0
  {
    if maxBytes <= 0 then DEFAULT_LIMIT else maxBytes
  }

  // io.ReadAll(io.LimitReader(log, n)). `pieces` says how much (less one) the
  // i-th read returns; a limit of zero or less is at its end at once.
  method ReadLimited(log: seq<byte>, n: int64, pieces: nat -> nat) returns (data: seq<byte>)
    ensures data == if n <= 0 then [] else if |log| <= n then log else log[..n]
  {
    data := [];
    var left: int := n;
    var pos, i := 0, 0;
    while left > 0 && pos < |log|
      invariant 0 <= pos <= |log| && data == log[..pos]
      invariant n > 0 ==> left == n - pos >= 0
      invariant n <= 0 ==> left == n && pos == 0
      decreases |log| - pos
    {
      var k := pieces(i) + 1;
      if k > left { k := left; }
      if k > |log| - pos { k := |log| - pos; }
      data := data + log[pos..pos + k];
      pos, left, i := pos + k, left - k, i + 1;
    }
  }

  datatype Output = Output(content: seq<byte>, truncated: bool)

  // What the handler is for: the first bytes of the log, at most `limit`, and
  // whether that is all.
  predicate Faithful(log: seq<byte>, limit: int, out: Output) {
    && out.content == (if |log| <= limit then log else if limit < 0 then [] else log[..limit])
    && out.truncated == (|log| > limit)
  }

  function Served(log: seq<byte>, maxBytes: int64): Output {
    var limit := EffectiveLimit(maxBytes);
    if limit == MAX_INT64 then Output([], false)
    else if |log| > limit then Output(log[..limit], true)
    else Output(log, false)
  }

  // instanceConsoleLog, once the log is open.
  method InstanceConsoleLog(log: seq<byte>, maxBytes: int64, pieces: nat -> nat) returns (out: Output)
    ensures out == Served(log, maxBytes)
    ensures maxBytes != 0x7FFF_FFFF_FFFF_FFFF ==>
      var limit := if maxBytes > 0 then maxBytes else 65536;
      && out.content == (if |log| <= limit then log else log[..limit])
      && (out.truncated <==> |log| > limit)
    ensures maxBytes == 0x7FFF_FFFF_FFFF_FFFF ==> out.content == [] && !out.truncated
  {
    var limit := maxBytes;
    if limit <= 0 { limit := DEFAULT_LIMIT; }
    var data := ReadLimited(log, Wrap(limit + 1), pieces);
    out := Output(data, false);
    if |data| > limit {
      out := Output(data[..limit], true);
    }
  }

  // The largest limit is the one that fails: every log that is not empty is
  // returned as if it were.
  lemma LargestLimitLosesTheLog(log: seq<byte>)
    ensures Faithful(log, MAX_INT64, Served(log, MAX_INT64)) <==> log == []
  {
  }

  lemma FaithfulIff(maxBytes: int64)
    ensures (forall log :: Faithful(log, if maxBytes > 0 then maxBytes else 65536, Served(log, maxBytes)))
        <==> maxBytes != 0x7FFF_FFFF_FFFF_FFFF
  {
    if maxBytes == MAX_INT64 {
      LargestLimitLosesTheLog([0]);
    }
  }
}
