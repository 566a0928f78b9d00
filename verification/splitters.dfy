/** Fixed-size chunking of a text with overlap (`split_by_const` in
    utils/splitters.py). Indices follow Python: a slice bound below zero
    counts from the end, and one past the end is clamped. */
module Splitters {
  import opened Wrappers

  function Min(a: int, b: int): int
  {
    if a <= b then a else b
  }

  /** Python's `s[a:b]`. */
  function PySlice(s: string, a: int, b: int): (r: string)
    ensures 0 <= a <= b <= |s| ==> r == s[a..b]
    ensures |r| <= |s|
  {
    var lo := if a < 0 then (if |s| + a < 0 then 0 else |s| + a) else Min(a, |s|);
    var hi := if b < 0 then (if |s| + b < 0 then 0 else |s| + b) else Min(b, |s|);
    if lo < hi then s[lo..hi] else []
  }

  /** The chunks the loop produces from position `start` on: a window of
      `maxLen` characters, then the next window starts `overlapLen` before
      the end of this one, until a window reaches the end of the text. */
  function ChunksFrom(text: string, maxLen: int, overlapLen: int, start: nat): seq<string>
    requires overlapLen < maxLen
    decreases |text| - start
  {
    if start >= |text| then []
    else
      var end := Min(start + maxLen, |text|);
      if end == |text| then [PySlice(text, start, end)]
      else [PySlice(text, start, end)] + ChunksFrom(text, maxLen, overlapLen, end - overlapLen)
  }

  const OverlapError: Exception := Exception("Exception", "overlap_len must be less than max_len")

  /** What `split_by_const(text, max_len, overlap_len)` returns or raises. */
  function Chunked(text: string, maxLen: int, overlapLen: int): (r: Result<seq<string>>)
    ensures maxLen >= |text| ==> r == Ok([text])
    ensures r.Raise? <==> maxLen < |text| && overlapLen >= maxLen
    ensures r.Raise? ==> r == Raise(OverlapError)
  {
    if maxLen >= |text| then Ok([text])
    else if overlapLen >= maxLen then Raise(OverlapError)
    else Ok(ChunksFrom(text, maxLen, overlapLen, 0))
  }

  /** `split_by_const`, with its loop. */
  method SplitByConst(text: string, maxLen: int, overlapLen: int) returns (r: Result<seq<string>>)
    ensures r == Chunked(text, maxLen, overlapLen)
  {
    var end := |text|;
    if maxLen >= end {
      return Ok([text]);
    }
    if overlapLen >= maxLen {
      return Raise(OverlapError);
    }
    ghost var target := ChunksFrom(text, maxLen, overlapLen, 0);
    assert Chunked(text, maxLen, overlapLen) == Ok(target);
    var res: seq<string> := [];
    var start: nat := 0;
    while start < |text|
      invariant res + ChunksFrom(text, maxLen, overlapLen, start) == target
      decreases |text| - start
    {
      end := Min(start + maxLen, |text|);
      LoopStep(text, maxLen, overlapLen, start, res);
      res := res + [PySlice(text, start, end)];
      if end == |text| {
        return Ok(res);
      }
      start := end - overlapLen;
    }
    assert res + [] == res;
    return Ok(res);
  }

  /** The loop's invariant across one pass: the chunks collected so far,
      then the chunks from the next start. */
  lemma LoopStep(text: string, maxLen: int, overlapLen: int, start: nat, res: seq<string>)
    requires overlapLen < maxLen && start < |text|
    ensures var end := Min(start + maxLen, |text|);
            var chunk := PySlice(text, start, end);
            (end == |text| ==> res + ChunksFrom(text, maxLen, overlapLen, start) == res + [chunk])
            && (end < |text| ==>
                  start < end - overlapLen
                  && res + ChunksFrom(text, maxLen, overlapLen, start)
                     == (res + [chunk]) + ChunksFrom(text, maxLen, overlapLen, end - overlapLen))
  {
    var end := Min(start + maxLen, |text|);
    WindowStep(text, maxLen, overlapLen, start);
    if end < |text| {
      AppendAssoc(res, [PySlice(text, start, end)], ChunksFrom(text, maxLen, overlapLen, end - overlapLen));
    }
  }

  /** One pass of the loop from `start`: the window, then either the end
      or the windows from `overlapLen` before the window's end. */
  lemma WindowStep(text: string, maxLen: int, overlapLen: int, start: nat)
    requires overlapLen < maxLen && start < |text|
    ensures var end := Min(start + maxLen, |text|);
            (end == |text| ==> ChunksFrom(text, maxLen, overlapLen, start) == [PySlice(text, start, end)])
            && (end < |text| ==>
                  start < end - overlapLen
                  && ChunksFrom(text, maxLen, overlapLen, start)
                     == [PySlice(text, start, end)] + ChunksFrom(text, maxLen, overlapLen, end - overlapLen))
  {
  }

  lemma AppendAssoc(a: seq<string>, b: seq<string>, c: seq<string>)
    ensures a + (b + c) == (a + b) + c
  {
  }

  /** A chunk without its first `n` characters (all of it when shorter). */
  function Drop(chunk: string, n: nat): string
  {
    if n <= |chunk| then chunk[n..] else []
  }

  /** The first chunk followed by every later chunk minus its overlap. */
  function Rebuild(chunks: seq<string>, overlapLen: nat): string
  {
    if chunks == [] then [] else chunks[0] + DropAll(chunks[1..], overlapLen)
  }

  function DropAll(chunks: seq<string>, n: nat): string
  {
    if chunks == [] then [] else Drop(chunks[0], n) + DropAll(chunks[1..], n)
  }

  /** With a non-negative overlap shorter than the window, every chunk
      holds at most `maxLen` characters, every chunk but the last exactly
      `maxLen`, the first chunk starts where the loop starts and the last
      one ends at the end of the text. */
  lemma {:induction false} ChunkLengths(text: string, maxLen: int, overlapLen: int, start: nat)
    requires 0 <= overlapLen < maxLen && start + overlapLen < |text|
    ensures var cs := ChunksFrom(text, maxLen, overlapLen, start);
            |cs| >= 1
            && cs[0] == text[start..Min(start + maxLen, |text|)]
            && (forall i | 0 <= i < |cs| :: |cs[i]| <= maxLen)
            && (forall i | 0 <= i < |cs| - 1 :: |cs[i]| == maxLen)
            && |cs[|cs| - 1]| > overlapLen
            && EndsWithText(text, cs[|cs| - 1])
    decreases |text| - start
  {
    var end := Min(start + maxLen, |text|);
    var cs := ChunksFrom(text, maxLen, overlapLen, start);
    assert cs[0] == PySlice(text, start, end) == text[start..end];
    if end != |text| {
      var next := end - overlapLen;
      ChunkLengths(text, maxLen, overlapLen, next);
      var rest := ChunksFrom(text, maxLen, overlapLen, next);
      assert cs == [text[start..end]] + rest;
      assert cs[|cs| - 1] == rest[|rest| - 1];
      forall i | 0 <= i < |cs| ensures |cs[i]| <= maxLen
      {
        if i > 0 { assert cs[i] == rest[i - 1]; }
      }
      forall i | 0 <= i < |cs| - 1 ensures |cs[i]| == maxLen
      {
        if i > 0 { assert cs[i] == rest[i - 1]; }
      }
    }
  }

  predicate EndsWithText(text: string, suffix: string)
  {
    |suffix| <= |text| && text[|text| - |suffix|..] == suffix
  }

  /** Chunk `i` begins with the last `overlapLen` characters of chunk
      `i - 1`. */
  predicate OverlapAt(cs: seq<string>, i: int, overlapLen: nat)
    requires 1 <= i < |cs|
  {
    overlapLen <= |cs[i - 1]| && overlapLen <= |cs[i]|
    && cs[i][..overlapLen] == cs[i - 1][|cs[i - 1]| - overlapLen..]
  }

  predicate Overlapping(cs: seq<string>, overlapLen: nat)
  {
    forall i | 1 <= i < |cs| :: OverlapAt(cs, i, overlapLen)
  }

  /** One step of the loop, when the window does not reach the end. */
  lemma ChunksStep(text: string, maxLen: int, overlapLen: int, start: nat)
    requires 0 <= overlapLen < maxLen && start + overlapLen < |text|
    requires start + maxLen < |text|
    ensures var next := start + maxLen - overlapLen;
            next + overlapLen < |text|
            && ChunksFrom(text, maxLen, overlapLen, start)
               == [text[start..start + maxLen]] + ChunksFrom(text, maxLen, overlapLen, next)
            && ChunksFrom(text, maxLen, overlapLen, next)[0] == text[next..Min(next + maxLen, |text|)]
            && |ChunksFrom(text, maxLen, overlapLen, next)[0]| > overlapLen
  {
    var next := start + maxLen - overlapLen;
    assert PySlice(text, start, start + maxLen) == text[start..start + maxLen];
    assert PySlice(text, next, Min(next + maxLen, |text|)) == text[next..Min(next + maxLen, |text|)];
  }

  /** Each chunk after the first begins with the last `overlapLen`
      characters of the chunk before it. */
  lemma {:induction false} ChunksOverlap(text: string, maxLen: int, overlapLen: int, start: nat)
    requires 0 <= overlapLen < maxLen && start + overlapLen < |text|
    ensures Overlapping(ChunksFrom(text, maxLen, overlapLen, start), overlapLen)
    decreases |text| - start, 1
  {
    if start + maxLen < |text| {
      OverlapStep(text, maxLen, overlapLen, start);
    } else {
      WindowStep(text, maxLen, overlapLen, start);
    }
  }

  lemma {:induction false} OverlapStep(text: string, maxLen: int, overlapLen: int, start: nat)
    requires 0 <= overlapLen < maxLen && start + overlapLen < |text| && start + maxLen < |text|
    ensures Overlapping(ChunksFrom(text, maxLen, overlapLen, start), overlapLen)
    decreases |text| - start, 0
  {
    var next := start + maxLen - overlapLen;
    ChunksStep(text, maxLen, overlapLen, start);
    ChunksOverlap(text, maxLen, overlapLen, next);
    FirstOverlap(text, maxLen, overlapLen, start);
    OverlappingCons(text[start..start + maxLen], ChunksFrom(text, maxLen, overlapLen, next), overlapLen);
  }

  /** The window after a full window starts with that window's last
      `overlapLen` characters. */
  lemma FirstOverlap(text: string, maxLen: int, overlapLen: int, start: nat)
    requires 0 <= overlapLen < maxLen && start + overlapLen < |text| && start + maxLen < |text|
    ensures var x := text[start..start + maxLen];
            var y := ChunksFrom(text, maxLen, overlapLen, start + maxLen - overlapLen);
            y != [] && overlapLen <= |x| && overlapLen <= |y[0]| && y[0][..overlapLen] == x[|x| - overlapLen..]
  {
    var next := start + maxLen - overlapLen;
    var c := Min(next + maxLen, |text|);
    ChunksStep(text, maxLen, overlapLen, start);
    assert text[next..c][..overlapLen] == text[next..start + maxLen];
  }

  lemma OverlappingCons(x: string, rest: seq<string>, n: nat)
    requires rest != [] && Overlapping(rest, n)
    requires n <= |x| && n <= |rest[0]| && rest[0][..n] == x[|x| - n..]
    ensures Overlapping([x] + rest, n)
  {
    var cs := [x] + rest;
    forall i | 1 <= i < |cs| ensures OverlapAt(cs, i, n)
    {
      if i >= 2 {
        assert OverlapAt(rest, i - 1, n);
        assert cs[i - 1] == rest[i - 2] && cs[i] == rest[i - 1];
      } else {
        assert cs[0] == x && cs[1] == rest[0];
      }
    }
  }

  lemma DropConcat(a: string, b: string, n: nat)
    requires n <= |a|
    ensures (a + b)[n..] == a[n..] + b
  {
  }

  /** Dropping the overlap from every chunk after the first and
      concatenating gives the text back from `start`. */
  lemma {:induction false} ChunksRebuild(text: string, maxLen: int, overlapLen: int, start: nat)
    requires 0 <= overlapLen < maxLen && start + overlapLen < |text|
    ensures Rebuild(ChunksFrom(text, maxLen, overlapLen, start), overlapLen) == text[start..]
    decreases |text| - start
  {
    if start + maxLen < |text| {
      ChunksRebuild(text, maxLen, overlapLen, start + maxLen - overlapLen);
      RebuildStep(text, maxLen, overlapLen, start);
    } else {
      LastWindowRebuild(text, maxLen, overlapLen, start);
    }
  }

  /** A window that reaches the end of the text is the last chunk, and it
      is the text from `start` on. */
  lemma LastWindowRebuild(text: string, maxLen: int, overlapLen: int, start: nat)
    requires 0 <= overlapLen < maxLen && start < |text| && |text| <= start + maxLen
    ensures ChunksFrom(text, maxLen, overlapLen, start) == [text[start..]]
    ensures Rebuild(ChunksFrom(text, maxLen, overlapLen, start), overlapLen) == text[start..]
  {
    WindowStep(text, maxLen, overlapLen, start);
    assert PySlice(text, start, |text|) == text[start..];
    assert [text[start..]][1..] == [];
  }

  /** One window more: if the chunks from the next start rebuild the text
      from there, the chunks from `start` rebuild it from `start`. */
  lemma RebuildStep(text: string, maxLen: int, overlapLen: int, start: nat)
    requires 0 <= overlapLen < maxLen && start + overlapLen < |text| && start + maxLen < |text|
    requires var next := start + maxLen - overlapLen;
             Rebuild(ChunksFrom(text, maxLen, overlapLen, next), overlapLen) == text[next..]
    ensures Rebuild(ChunksFrom(text, maxLen, overlapLen, start), overlapLen) == text[start..]
  {
    RebuildUnfold(text, maxLen, overlapLen, start);
    RejoinAfterOverlap(text, start, start + maxLen, overlapLen);
  }

  /** The first window in front of the chunks from the next start. */
  lemma RebuildUnfold(text: string, maxLen: int, overlapLen: int, start: nat)
    requires 0 <= overlapLen < maxLen && start + overlapLen < |text| && start + maxLen < |text|
    ensures Rebuild(ChunksFrom(text, maxLen, overlapLen, start), overlapLen)
            == text[start..start + maxLen]
               + Rebuild(ChunksFrom(text, maxLen, overlapLen, start + maxLen - overlapLen), overlapLen)[overlapLen..]
  {
    var rest := ChunksFrom(text, maxLen, overlapLen, start + maxLen - overlapLen);
    ChunksStep(text, maxLen, overlapLen, start);
    RebuildCons(text[start..start + maxLen], rest, overlapLen);
  }

  /** Putting a chunk in front: the rest is rebuilt without its overlap. */
  lemma RebuildCons(x: string, rest: seq<string>, n: nat)
    requires rest != [] && n <= |rest[0]|
    ensures Rebuild([x] + rest, n) == x + Rebuild(rest, n)[n..]
  {
    assert ([x] + rest)[1..] == rest;
    DropConcat(rest[0], DropAll(rest[1..], n), n);
  }

  lemma RejoinAfterOverlap(text: string, start: nat, end: nat, n: nat)
    requires start <= end <= |text| && n <= end - start
    ensures text[start..end] + text[end - n..][n..] == text[start..]
  {
    assert text[end - n..][n..] == text[end..];
  }

  /** The properties of a successful split, as the callers rely on them. */
  lemma ChunkedProperties(text: string, maxLen: int, overlapLen: int)
    requires 0 <= overlapLen < maxLen
    ensures Chunked(text, maxLen, overlapLen).Ok?
    ensures var cs := Chunked(text, maxLen, overlapLen).value;
            |cs| >= 1
            && Rebuild(cs, overlapLen) == text
            && EndsWithText(text, cs[|cs| - 1])
            && (maxLen < |text| ==>
                  cs[0] == text[..maxLen]
                  && (forall i | 0 <= i < |cs| :: |cs[i]| <= maxLen)
                  && (forall i | 0 <= i < |cs| - 1 :: |cs[i]| == maxLen)
                  && Overlapping(cs, overlapLen))
  {
    if maxLen < |text| {
      ChunksRebuild(text, maxLen, overlapLen, 0);
      ChunkLengths(text, maxLen, overlapLen, 0);
      ChunksOverlap(text, maxLen, overlapLen, 0);
      assert text[0..] == text;
    } else {
      assert [text][1..] == [];
    }
  }

  /** A negative overlap is accepted and leaves gaps: windows start
      `maxLen - overlapLen` apart, so here "c" falls between the chunks and
      the final "f" is in none of them. */
  lemma NegativeOverlapSkips()
    ensures Chunked("abcdef", 2, -1) == Ok(["ab", "de"])
  {
    var t := "abcdef";
    assert ChunksFrom(t, 2, -1, 6) == [];
    assert PySlice(t, 3, 5) == t[3..5] == "de";
    assert ChunksFrom(t, 2, -1, 3) == ["de"];
    assert PySlice(t, 0, 2) == t[0..2] == "ab";
    assert ChunksFrom(t, 2, -1, 0) == ["ab"] + ChunksFrom(t, 2, -1, 3) == ["ab", "de"];
    assert Chunked(t, 2, -1) == Ok(ChunksFrom(t, 2, -1, 0));
  }
}
