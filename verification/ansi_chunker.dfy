/** Cutting one line of terminal output, which may hold SGR colour escape
    sequences, into pieces of at most a given number of visible characters
    (frontend/src/utils/splitAnsiLineByVisibleLength.js). */
module AnsiChunker {
  import opened Strings
  import opened Wrappers

  const Esc: char := '\U{1B}'

  /** The maximum visible length when the caller passes none. */
  const DefaultMaxVisibleLength: int := 80

  predicate IsParamChar(c: char) {
    '0' <= c <= '9' || c == ';'
  }

  /** Length of the run of `[0-9;]` characters starting at `s[i]`. */
  function ParamRun(s: string, i: nat): (n: nat)
    requires i <= |s|
    ensures i + n <= |s|
    decreases |s| - i
  {
    if i < |s| && IsParamChar(s[i]) then 1 + ParamRun(s, i + 1) else 0
  }

  /** Length of the match of `ESC [ [0-9;]* m` that starts at `s[i]`, or 0
      when no match starts there. The pattern has a single way to match at
      a given position, so the length is well defined. */
  function SgrLen(s: string, i: nat): (n: nat)
    requires i <= |s|
    ensures n == 0 || (n >= 3 && i + n <= |s|)
    ensures n > 0 ==> s[i] == Esc
  {
    if i + 1 < |s| && s[i] == Esc && s[i + 1] == '[' then
      var k := ParamRun(s, i + 2);
      if i + 2 + k < |s| && s[i + 2 + k] == 'm' then k + 3 else 0
    else 0
  }

  /** Where a global regular-expression search resumed at `from` finds its
      next match, if anywhere. */
  function NextSgr(s: string, from: nat): (r: Option<nat>)
    requires from <= |s|
    ensures r.Some? ==> from <= r.value < |s| && SgrLen(s, r.value) > 0
    ensures r.Some? ==> forall j | from <= j < r.value :: SgrLen(s, j) == 0
    ensures r.None? ==> forall j | from <= j <= |s| :: SgrLen(s, j) == 0
    decreases |s| - from
  {
    if from == |s| then None
    else if SgrLen(s, from) > 0 then Some(from)
    else NextSgr(s, from + 1)
  }

  /** The chunks still to come when the scan is at `s[i]`, with `chunk`
      under construction holding `count` visible characters: an escape
      sequence joins the chunk whole, a visible character joins it and
      closes it once the count reaches `max`, and the end of the input
      closes the last chunk (possibly empty). */
  function ChunksFrom(s: string, i: nat, max: int, chunk: string, count: int): (r: seq<string>)
    requires i <= |s|
    ensures |r| >= 1
    decreases |s| - i
  {
    if i == |s| then [chunk]
    else
      var n := SgrLen(s, i);
      if n > 0 then ChunksFrom(s, i + n, max, chunk + s[i..i + n], count)
      else if count + 1 >= max then [chunk + [s[i]]] + ChunksFrom(s, i + 1, max, [], 0)
      else ChunksFrom(s, i + 1, max, chunk + [s[i]], count + 1)
  }

  function Chunks(s: string, max: int): seq<string>
  {
    ChunksFrom(s, 0, max, [], 0)
  }

  /** `splitAnsiLineByVisibleLength(input, maxVisibleLength)`: the regular
      expression search from `lastIndex`, the visible characters before each
      match, the match itself, and the visible characters after the last
      match; the final chunk is always pushed, even when empty. */
  method SplitAnsiLineByVisibleLength(input: string, maxVisibleLength: int := DefaultMaxVisibleLength)
    returns (result: seq<string>)
    ensures result == Chunks(input, maxVisibleLength)
  {
    result := [];
    var visibleCount := 0;
    var chunk := "";
    var lastIndex := 0;
    var next := NextSgr(input, 0);
    ghost var target := Chunks(input, maxVisibleLength);
    while next.Some?
      invariant lastIndex <= |input|
      invariant next == NextSgr(input, lastIndex)
      invariant result + ChunksFrom(input, lastIndex, maxVisibleLength, chunk, visibleCount) == target
      decreases |input| - lastIndex
    {
      var matchIndex := next.value;
      result, chunk, visibleCount :=
        CopyVisible(input, lastIndex, matchIndex, maxVisibleLength, result, chunk, visibleCount);
      var len := SgrLen(input, matchIndex);
      EscapeKeepsTarget(input, matchIndex, maxVisibleLength, result, chunk, visibleCount);
      chunk := chunk + input[matchIndex..matchIndex + len];
      lastIndex := matchIndex + len;
      next := NextSgr(input, lastIndex);
    }
    result, chunk, visibleCount :=
      CopyVisible(input, lastIndex, |input|, maxVisibleLength, result, chunk, visibleCount);
    result := result + [chunk];
  }

  /** The loop over `input.slice(from, to)`, a stretch without escape
      sequences, that the source writes out twice: each character joins the
      chunk and the chunk is pushed once it holds `max` visible characters.
      The chunks still to come are unchanged by the copy. */
  method CopyVisible(input: string, from: nat, to: nat, max: int, result0: seq<string>, chunk0: string, count0: int)
    returns (result: seq<string>, chunk: string, visibleCount: int)
    requires from <= to <= |input|
    requires forall j | from <= j < to :: SgrLen(input, j) == 0
    ensures result + ChunksFrom(input, to, max, chunk, visibleCount)
            == result0 + ChunksFrom(input, from, max, chunk0, count0)
  {
    result, chunk, visibleCount := result0, chunk0, count0;
    ghost var target := result0 + ChunksFrom(input, from, max, chunk0, count0);
    for i := from to to
      invariant result + ChunksFrom(input, i, max, chunk, visibleCount) == target
    {
      ghost var result1, chunk1, count1 := result, chunk, visibleCount;
      chunk := chunk + [input[i]];
      visibleCount := visibleCount + 1;
      if visibleCount >= max {
        result := result + [chunk];
        chunk := "";
        visibleCount := 0;
        CopyFlush(input, i, max, result1, chunk1, count1);
      } else {
        CopyGrow(input, i, max, result1, chunk1, count1);
      }
    }
  }

  /** A visible character that fills the chunk closes it; the chunks to
      come are unchanged. */
  lemma CopyFlush(s: string, p: nat, max: int, result: seq<string>, chunk: string, count: int)
    requires p < |s| && SgrLen(s, p) == 0 && count + 1 >= max
    ensures (result + [chunk + [s[p]]]) + ChunksFrom(s, p + 1, max, "", 0)
            == result + ChunksFrom(s, p, max, chunk, count)
  {
    ChunksFromStep(s, p, max, chunk, count);
    assert result + ([chunk + [s[p]]] + ChunksFrom(s, p + 1, max, [], 0))
           == result + [chunk + [s[p]]] + ChunksFrom(s, p + 1, max, [], 0);
  }

  /** A visible character that does not fill the chunk joins it. */
  lemma CopyGrow(s: string, p: nat, max: int, result: seq<string>, chunk: string, count: int)
    requires p < |s| && SgrLen(s, p) == 0 && count + 1 < max
    ensures result + ChunksFrom(s, p + 1, max, chunk + [s[p]], count + 1)
            == result + ChunksFrom(s, p, max, chunk, count)
  {
    ChunksFromStep(s, p, max, chunk, count);
  }

  // ---------------------------------------------------------------------
  // An independent description of what the chunks are.

  /** Offset `b` of `s` does not fall inside an escape sequence: every match
      that starts before `b` also ends at or before it. */
  ghost predicate OutsideEscapes(s: string, b: nat)
  {
    b <= |s| && forall j | 0 <= j < b :: j + SgrLen(s, j) <= b
  }

  /** `s[j]` is shown on the terminal: no escape sequence covers it. */
  ghost predicate Visible(s: string, j: nat)
    requires j < |s|
  {
    OutsideEscapes(s, j) && SgrLen(s, j) == 0
  }

  /** Number of visible characters among `s[a..e]`. */
  ghost function CountVisible(s: string, a: nat, e: nat): nat
    requires a <= e <= |s|
    decreases e - a
  {
    if a == e then 0 else (if Visible(s, a) then 1 else 0) + CountVisible(s, a + 1, e)
  }

  /** Where a chunk starts and ends in the input. */
  datatype Span = Span(lo: nat, hi: nat)

  /** The spans of the chunks still to come when the scan is at `s[i]` and
      the chunk under construction started at `s[st]`. */
  function SpansFrom(s: string, i: nat, max: int, st: nat, count: int): (p: seq<Span>)
    requires st <= i <= |s|
    ensures |p| >= 1 && p[0].lo == st && p[|p| - 1].hi == |s|
    decreases |s| - i
  {
    if i == |s| then [Span(st, i)]
    else
      var n := SgrLen(s, i);
      if n > 0 then SpansFrom(s, i + n, max, st, count)
      else if count + 1 >= max then [Span(st, i + 1)] + SpansFrom(s, i + 1, max, i + 1, 0)
      else SpansFrom(s, i + 1, max, st, count + 1)
  }

  function Spans(s: string, max: int): seq<Span>
  {
    SpansFrom(s, 0, max, 0, 0)
  }

  /** The chunks put back together are the input. */
  lemma ChunksReassemble(s: string, max: int)
    ensures Concat(Chunks(s, max)) == s
  {
    ChunksFromConcat(s, 0, max, [], 0);
  }

  /** Chunk `k` is the input between the ends of span `k`, and no span end
      falls inside an escape sequence: an escape sequence is never cut in
      two. This holds for every maximum. */
  lemma ChunksMatchSpans(s: string, max: int)
    ensures SlicesOf(s, Chunks(s, max), Spans(s, max))
    ensures EndsOutside(s, Spans(s, max))
  {
    ChunksSpansFrom(s, 0, max, [], 0, 0, Chunks(s, max), Spans(s, max));
    SlicedAlongIndexed(s, Chunks(s, max), Spans(s, max));
    SpansOutsideEscapesFrom(s, 0, max, 0, 0, Spans(s, max));
  }

  /** With a positive maximum, every chunk but the last holds exactly `max`
      visible characters and ends with one, and the last holds fewer; so
      the visible characters of the input number `max` for each full chunk
      plus those of the last chunk. */
  lemma SpansVisibleCounts(s: string, max: int)
    requires max >= 1
    ensures Bounded(s, Spans(s, max))
    ensures forall k | 0 <= k < |Spans(s, max)| - 1 ::
              Spans(s, max)[k].lo < Spans(s, max)[k].hi
              && CountVisible(s, Spans(s, max)[k].lo, Spans(s, max)[k].hi) == max
              && Visible(s, Spans(s, max)[k].hi - 1)
    ensures CountVisible(s, Spans(s, max)[|Spans(s, max)| - 1].lo, |s|) < max
    ensures CountVisible(s, 0, |s|)
            == (|Spans(s, max)| - 1) * max + CountVisible(s, Spans(s, max)[|Spans(s, max)| - 1].lo, |s|)
  {
    SpansCountsFrom(s, 0, max, 0, 0, Spans(s, max));
    TimesIsProduct(|Spans(s, max)| - 1, max);
  }

  /** An input without visible characters, colour codes only say, comes
      back as a single chunk: the input itself. */
  lemma NoVisibleOneChunk(s: string, max: int)
    requires max >= 1 && CountVisible(s, 0, |s|) == 0
    ensures Chunks(s, max) == [s]
  {
    var p := Spans(s, max);
    OneSpanWithoutVisible(s, max);
    ChunksSpansFrom(s, 0, max, [], 0, 0, Chunks(s, max), p);
    assert s[0..|s|] == s;
  }

  lemma OneSpanWithoutVisible(s: string, max: int)
    requires max >= 1 && CountVisible(s, 0, |s|) == 0
    ensures |Spans(s, max)| == 1
  {
    var p := Spans(s, max);
    SpansCountsFrom(s, 0, max, 0, 0, p);
    if |p| > 1 {
      TimesNonNegative(|p| - 2, max);
    }
  }

  lemma TimesNonNegative(n: nat, m: int)
    requires m >= 0
    ensures Times(n, m) >= 0
  {
  }

  /** `n * m` by repeated addition, which the solver unfolds one step at a
      time. */
  function Times(n: nat, m: int): int
  {
    if n == 0 then 0 else m + Times(n - 1, m)
  }

  lemma {:induction false} TimesIsProduct(n: nat, m: int)
    ensures Times(n, m) == n * m
  {
    if n > 0 {
      TimesIsProduct(n - 1, m);
    }
  }

  /** A maximum of zero or less behaves as a maximum of one: every visible
      character closes its chunk. */
  lemma {:induction false} NonPositiveMax(s: string, i: nat, max: int, chunk: string)
    requires i <= |s| && max <= 1
    ensures ChunksFrom(s, i, max, chunk, 0) == ChunksFrom(s, i, 1, chunk, 0)
    decreases |s| - i
  {
    if i < |s| {
      var n := SgrLen(s, i);
      if n > 0 {
        NonPositiveMax(s, i + n, max, chunk + s[i..i + n]);
      } else {
        NonPositiveMax(s, i + 1, max, []);
      }
    }
  }

  lemma {:induction false} ChunksFromConcat(s: string, i: nat, max: int, chunk: string, count: int)
    requires i <= |s|
    ensures Concat(ChunksFrom(s, i, max, chunk, count)) == chunk + s[i..]
    decreases |s| - i, 1
  {
    if i == |s| {
      assert Concat([chunk]) == chunk + Concat([]);
    } else if SgrLen(s, i) > 0 {
      ConcatAfterEscape(s, i, max, chunk, count);
    } else if count + 1 >= max {
      ConcatAfterFlush(s, i, max, chunk, count);
    } else {
      ConcatAfterGrow(s, i, max, chunk, count);
    }
  }

  lemma {:induction false} ConcatAfterEscape(s: string, i: nat, max: int, chunk: string, count: int)
    requires i < |s| && SgrLen(s, i) > 0
    ensures Concat(ChunksFrom(s, i, max, chunk, count)) == chunk + s[i..]
    decreases |s| - i, 0
  {
    var n := SgrLen(s, i);
    var grown := chunk + s[i..i + n];
    calc {
      Concat(ChunksFrom(s, i, max, chunk, count));
      == { EscapeExtendsChunk(s, i, max, chunk, count); }
      Concat(ChunksFrom(s, i + n, max, grown, count));
      == { ChunksFromConcat(s, i + n, max, grown, count); }
      grown + s[i + n..];
      == { JoinSlices(s, chunk, i, i + n); }
      chunk + s[i..];
    }
  }

  /** The loop's invariant across an escape sequence. */
  lemma EscapeKeepsTarget(s: string, i: nat, max: int, result: seq<string>, chunk: string, count: int)
    requires i < |s| && SgrLen(s, i) > 0
    ensures result + ChunksFrom(s, i, max, chunk, count)
            == result + ChunksFrom(s, i + SgrLen(s, i), max, chunk + s[i..i + SgrLen(s, i)], count)
  {
    EscapeExtendsChunk(s, i, max, chunk, count);
  }

  lemma EscapeExtendsChunk(s: string, i: nat, max: int, chunk: string, count: int)
    requires i < |s| && SgrLen(s, i) > 0
    ensures ChunksFrom(s, i, max, chunk, count)
            == ChunksFrom(s, i + SgrLen(s, i), max, chunk + s[i..i + SgrLen(s, i)], count)
  {
  }

  lemma {:induction false} ConcatAfterFlush(s: string, i: nat, max: int, chunk: string, count: int)
    requires i < |s| && SgrLen(s, i) == 0 && count + 1 >= max
    ensures Concat(ChunksFrom(s, i, max, chunk, count)) == chunk + s[i..]
    decreases |s| - i, 0
  {
    var grown := chunk + [s[i]];
    var rest := ChunksFrom(s, i + 1, max, [], 0);
    ChunksFromStep(s, i, max, chunk, count);
    ChunksFromConcat(s, i + 1, max, [], 0);
    ConcatCons(grown, rest);
    assert [] + s[i + 1..] == s[i + 1..];
    JoinSlices(s, chunk, i, i + 1);
    assert s[i..i + 1] == [s[i]];
  }

  lemma {:induction false} ConcatAfterGrow(s: string, i: nat, max: int, chunk: string, count: int)
    requires i < |s| && SgrLen(s, i) == 0 && count + 1 < max
    ensures Concat(ChunksFrom(s, i, max, chunk, count)) == chunk + s[i..]
    decreases |s| - i, 0
  {
    ChunksFromStep(s, i, max, chunk, count);
    ChunksFromConcat(s, i + 1, max, chunk + [s[i]], count + 1);
    JoinSlices(s, chunk, i, i + 1);
    assert s[i..i + 1] == [s[i]];
  }

  /** A chunk grown by `s[i..j]` and followed by `s[j..]` is the chunk
      followed by `s[i..]`. */
  lemma JoinSlices(s: string, chunk: string, i: nat, j: nat)
    requires i <= j <= |s|
    ensures (chunk + s[i..j]) + s[j..] == chunk + s[i..]
  {
    assert s[i..] == s[i..j] + s[j..];
  }

  lemma StepEscape(s: string, i: nat)
    requires i < |s| && OutsideEscapes(s, i) && SgrLen(s, i) > 0
    ensures OutsideEscapes(s, i + SgrLen(s, i))
  {
    forall j | 0 <= j < i + SgrLen(s, i)
      ensures j + SgrLen(s, j) <= i + SgrLen(s, i)
    {
      if i < j {
        SgrInterior(s, i, j);
      }
    }
  }

  /** No escape sequence starts strictly inside another. */
  lemma SgrInterior(s: string, i: nat, j: nat)
    requires i < j < |s| && SgrLen(s, i) > 0 && j < i + SgrLen(s, i)
    ensures SgrLen(s, j) == 0
  {
    if j > i + 1 && j < i + SgrLen(s, i) - 1 {
      ParamRunChars(s, i + 2, j);
    }
  }

  lemma {:induction false} ParamRunChars(s: string, i: nat, j: nat)
    requires i <= |s| && i <= j < i + ParamRun(s, i)
    ensures IsParamChar(s[j])
    decreases j - i
  {
    if i < j {
      ParamRunChars(s, i + 1, j);
    }
  }

  lemma ChunksFromStep(s: string, i: nat, max: int, chunk: string, count: int)
    requires i < |s|
    ensures SgrLen(s, i) > 0 ==>
              ChunksFrom(s, i, max, chunk, count)
              == ChunksFrom(s, i + SgrLen(s, i), max, chunk + s[i..i + SgrLen(s, i)], count)
    ensures SgrLen(s, i) == 0 && count + 1 >= max ==>
              ChunksFrom(s, i, max, chunk, count) == [chunk + [s[i]]] + ChunksFrom(s, i + 1, max, [], 0)
    ensures SgrLen(s, i) == 0 && count + 1 < max ==>
              ChunksFrom(s, i, max, chunk, count) == ChunksFrom(s, i + 1, max, chunk + [s[i]], count + 1)
  {
  }

  lemma SpansFromStep(s: string, i: nat, max: int, st: nat, count: int)
    requires st <= i < |s|
    ensures SgrLen(s, i) > 0 ==>
              SpansFrom(s, i, max, st, count) == SpansFrom(s, i + SgrLen(s, i), max, st, count)
    ensures SgrLen(s, i) == 0 && count + 1 >= max ==>
              SpansFrom(s, i, max, st, count) == [Span(st, i + 1)] + SpansFrom(s, i + 1, max, i + 1, 0)
    ensures SgrLen(s, i) == 0 && count + 1 < max ==>
              SpansFrom(s, i, max, st, count) == SpansFrom(s, i + 1, max, st, count + 1)
  {
  }

  lemma StepVisible(s: string, i: nat)
    requires i < |s| && OutsideEscapes(s, i) && SgrLen(s, i) == 0
    ensures OutsideEscapes(s, i + 1)
  {
  }

  lemma {:induction false} CountVisibleSplit(s: string, a: nat, m: nat, e: nat)
    requires a <= m <= e <= |s|
    ensures CountVisible(s, a, e) == CountVisible(s, a, m) + CountVisible(s, m, e)
    decreases m - a
  {
    if a < m {
      CountVisibleSplit(s, a + 1, m, e);
    }
  }

  /** No character inside an escape sequence is visible. */
  lemma {:induction false} InsideEscape(s: string, i: nat, j: nat)
    requires i < |s| && SgrLen(s, i) > 0 && i <= j <= i + SgrLen(s, i)
    ensures CountVisible(s, j, i + SgrLen(s, i)) == 0
    decreases i + SgrLen(s, i) - j
  {
    if j < i + SgrLen(s, i) {
      if j > i {
        assert !(i + SgrLen(s, i) <= j);
      }
      assert !Visible(s, j);
      InsideEscape(s, i, j + 1);
    }
  }

  /** Each string of `r` is the slice of `s` given by the span at the same index. */
  ghost predicate SlicesOf(s: string, r: seq<string>, p: seq<Span>)
  {
    |r| == |p| && forall k | 0 <= k < |r| :: p[k].lo <= p[k].hi <= |s| && r[k] == s[p[k].lo..p[k].hi]
  }

  /** The same, stated head first. */
  ghost predicate SlicedAlong(s: string, r: seq<string>, p: seq<Span>)
    decreases |r|
  {
    |r| == |p|
    && (r != [] ==> p[0].lo <= p[0].hi <= |s| && r[0] == s[p[0].lo..p[0].hi] && SlicedAlong(s, r[1..], p[1..]))
  }

  lemma {:induction false} SlicedAlongIndexed(s: string, r: seq<string>, p: seq<Span>)
    requires SlicedAlong(s, r, p)
    ensures SlicesOf(s, r, p)
    decreases |r|
  {
    if r != [] {
      SlicedAlongIndexed(s, r[1..], p[1..]);
      forall k | 1 <= k < |r|
        ensures p[k].lo <= p[k].hi <= |s| && r[k] == s[p[k].lo..p[k].hi]
      {
        assert r[k] == r[1..][k - 1] && p[k] == p[1..][k - 1];
      }
    }
  }

  lemma {:induction false} ChunksSpansFrom(s: string, i: nat, max: int, chunk: string, count: int, st: nat,
                                          r: seq<string>, p: seq<Span>)
    requires st <= i <= |s| && chunk == s[st..i]
    requires r == ChunksFrom(s, i, max, chunk, count) && p == SpansFrom(s, i, max, st, count)
    ensures SlicedAlong(s, r, p)
    decreases |s| - i, 1
  {
    if i < |s| {
      if SgrLen(s, i) > 0 {
        SlicesEscape(s, i, max, chunk, count, st, r, p);
      } else if count + 1 >= max {
        SlicesFlush(s, i, max, chunk, count, st, r, p);
      } else {
        SlicesGrow(s, i, max, chunk, count, st, r, p);
      }
    }
  }

  lemma {:induction false} SlicesEscape(s: string, i: nat, max: int, chunk: string, count: int, st: nat,
                                       r: seq<string>, p: seq<Span>)
    requires st <= i < |s| && chunk == s[st..i] && SgrLen(s, i) > 0
    requires r == ChunksFrom(s, i, max, chunk, count) && p == SpansFrom(s, i, max, st, count)
    ensures SlicedAlong(s, r, p)
    decreases |s| - i, 0
  {
    var n := SgrLen(s, i);
    EscapeJoinsChunk(s, i, max, chunk, count, st);
    ChunksSpansFrom(s, i + n, max, s[st..i + n], count, st, r, p);
  }

  /** An escape sequence joins the chunk under construction, which stays a
      slice of the input, and the spans to come do not change. */
  lemma EscapeJoinsChunk(s: string, i: nat, max: int, chunk: string, count: int, st: nat)
    requires st <= i < |s| && chunk == s[st..i] && SgrLen(s, i) > 0
    ensures ChunksFrom(s, i, max, chunk, count)
            == ChunksFrom(s, i + SgrLen(s, i), max, s[st..i + SgrLen(s, i)], count)
    ensures SpansFrom(s, i, max, st, count) == SpansFrom(s, i + SgrLen(s, i), max, st, count)
  {
    ChunksFromStep(s, i, max, chunk, count);
    SliceSplit(s, st, i, i + SgrLen(s, i));
  }

  lemma SliceSplit(s: string, a: nat, b: nat, c: nat)
    requires a <= b <= c <= |s|
    ensures s[a..c] == s[a..b] + s[b..c]
  {
  }

  lemma {:induction false} SlicesFlush(s: string, i: nat, max: int, chunk: string, count: int, st: nat,
                                      r: seq<string>, p: seq<Span>)
    requires st <= i < |s| && chunk == s[st..i] && SgrLen(s, i) == 0 && count + 1 >= max
    requires r == ChunksFrom(s, i, max, chunk, count) && p == SpansFrom(s, i, max, st, count)
    ensures SlicedAlong(s, r, p)
    decreases |s| - i, 0
  {
    ChunksFromStep(s, i, max, chunk, count);
    SpansFromStep(s, i, max, st, count);
    var r' := ChunksFrom(s, i + 1, max, [], 0);
    var p' := SpansFrom(s, i + 1, max, i + 1, 0);
    ChunksSpansFrom(s, i + 1, max, [], 0, i + 1, r', p');
    assert s[st..i + 1] == chunk + [s[i]];
    SlicesCons(s, chunk + [s[i]], Span(st, i + 1), r', p');
  }

  lemma {:induction false} SlicesGrow(s: string, i: nat, max: int, chunk: string, count: int, st: nat,
                                     r: seq<string>, p: seq<Span>)
    requires st <= i < |s| && chunk == s[st..i] && SgrLen(s, i) == 0 && count + 1 < max
    requires r == ChunksFrom(s, i, max, chunk, count) && p == SpansFrom(s, i, max, st, count)
    ensures SlicedAlong(s, r, p)
    decreases |s| - i, 0
  {
    ChunksFromStep(s, i, max, chunk, count);
    SpansFromStep(s, i, max, st, count);
    assert s[st..i + 1] == chunk + [s[i]];
    ChunksSpansFrom(s, i + 1, max, chunk + [s[i]], count + 1, st, r, p);
  }

  lemma SlicesCons(s: string, c: string, x: Span, r: seq<string>, p: seq<Span>)
    requires x.lo <= x.hi <= |s| && c == s[x.lo..x.hi] && SlicedAlong(s, r, p)
    ensures SlicedAlong(s, [c] + r, [x] + p)
  {
    assert ([c] + r)[1..] == r && ([x] + p)[1..] == p;
  }

  lemma {:induction false} SpansOutsideEscapesFrom(s: string, i: nat, max: int, st: nat, count: int, p: seq<Span>)
    requires st <= i <= |s|
    requires OutsideEscapes(s, st) && OutsideEscapes(s, i)
    requires p == SpansFrom(s, i, max, st, count)
    ensures EndsOutside(s, p)
    decreases |s| - i, 1
  {
    if i == |s| {
      assert p == [Span(st, i)];
      EndsOutsideSingle(s, Span(st, i));
    } else if SgrLen(s, i) > 0 {
      OutsideAfterEscape(s, i, max, st, count, p);
    } else if count + 1 >= max {
      OutsideAfterFlush(s, i, max, st, count, p);
    } else {
      OutsideAfterGrow(s, i, max, st, count, p);
    }
  }

  lemma {:induction false} OutsideAfterEscape(s: string, i: nat, max: int, st: nat, count: int, p: seq<Span>)
    requires st <= i < |s| && SgrLen(s, i) > 0
    requires OutsideEscapes(s, st) && OutsideEscapes(s, i)
    requires p == SpansFrom(s, i, max, st, count)
    ensures EndsOutside(s, p)
    decreases |s| - i, 0
  {
    SpansFromStep(s, i, max, st, count);
    StepEscape(s, i);
    SpansOutsideEscapesFrom(s, i + SgrLen(s, i), max, st, count, p);
  }

  lemma {:induction false} OutsideAfterFlush(s: string, i: nat, max: int, st: nat, count: int, p: seq<Span>)
    requires st <= i < |s| && SgrLen(s, i) == 0 && count + 1 >= max
    requires OutsideEscapes(s, st) && OutsideEscapes(s, i)
    requires p == SpansFrom(s, i, max, st, count)
    ensures EndsOutside(s, p)
    decreases |s| - i, 0
  {
    SpansFromStep(s, i, max, st, count);
    StepVisible(s, i);
    var p' := SpansFrom(s, i + 1, max, i + 1, 0);
    SpansOutsideEscapesFrom(s, i + 1, max, i + 1, 0, p');
    OutsideEscapesCons(s, Span(st, i + 1), p');
  }

  lemma {:induction false} OutsideAfterGrow(s: string, i: nat, max: int, st: nat, count: int, p: seq<Span>)
    requires st <= i < |s| && SgrLen(s, i) == 0 && count + 1 < max
    requires OutsideEscapes(s, st) && OutsideEscapes(s, i)
    requires p == SpansFrom(s, i, max, st, count)
    ensures EndsOutside(s, p)
    decreases |s| - i, 0
  {
    SpansFromStep(s, i, max, st, count);
    StepVisible(s, i);
    SpansOutsideEscapesFrom(s, i + 1, max, st, count + 1, p);
  }

  /** Both ends of every span lie outside escape sequences. */
  ghost predicate EndsOutside(s: string, p: seq<Span>)
  {
    forall k | 0 <= k < |p| :: OutsideEscapes(s, p[k].lo) && OutsideEscapes(s, p[k].hi)
  }

  lemma EndsOutsideSingle(s: string, x: Span)
    requires OutsideEscapes(s, x.lo) && OutsideEscapes(s, x.hi)
    ensures EndsOutside(s, [x])
  {
  }

  lemma OutsideEscapesCons(s: string, x: Span, q: seq<Span>)
    requires OutsideEscapes(s, x.lo) && OutsideEscapes(s, x.hi)
    requires EndsOutside(s, q)
    ensures EndsOutside(s, [x] + q)
  {
    var p := [x] + q;
    forall k | 0 <= k < |p|
      ensures OutsideEscapes(s, p[k].lo) && OutsideEscapes(s, p[k].hi)
    {
      if k > 0 {
        assert p[k] == q[k - 1];
      }
    }
  }

  /** The visible-count facts of the spans still to come, given that the
      chunk under construction holds `count` visible characters and the
      scan is at `s[i]`: every span but the last holds exactly `max` visible
      characters and ends with one, the last holds fewer, and the visible
      characters from the scan position on, with those already counted, are
      `max` per full span plus those of the last span. */
  ghost predicate CountsHold(s: string, i: nat, max: int, count: int, p: seq<Span>)
  {
    i <= |s| && Bounded(s, p) && FullSpans(s, max, p) && Tally(s, i, max, count, p)
  }

  ghost predicate Bounded(s: string, p: seq<Span>)
  {
    |p| >= 1 && forall k | 0 <= k < |p| :: p[k].lo <= p[k].hi <= |s|
  }

  /** Every span but the last is non-empty, holds `max` visible characters and ends with one. */
  ghost predicate FullSpans(s: string, max: int, p: seq<Span>)
    requires Bounded(s, p)
  {
    forall k | 0 <= k < |p| - 1 :: FullSpan(s, max, p[k])
  }

  /** A non-empty span with `max` visible characters, the last at its end. */
  ghost predicate FullSpan(s: string, max: int, x: Span)
  {
    x.lo < x.hi <= |s| && CountVisible(s, x.lo, x.hi) == max && Visible(s, x.hi - 1)
  }

  /** The last span holds fewer than `max` visible characters, and the visible
      characters from `s[i]` on, with the `count` already counted, are `max`
      per full span plus those of the last span. */
  ghost predicate Tally(s: string, i: nat, max: int, count: int, p: seq<Span>)
    requires i <= |s| && Bounded(s, p)
  {
    CountVisible(s, p[|p| - 1].lo, |s|) < max
    && count + CountVisible(s, i, |s|) == Times(|p| - 1, max) + CountVisible(s, p[|p| - 1].lo, |s|)
  }

  lemma {:induction false} SpansCountsFrom(s: string, i: nat, max: int, st: nat, count: int, p: seq<Span>)
    requires max >= 1
    requires st <= i <= |s| && OutsideEscapes(s, i)
    requires 0 <= count < max && count == CountVisible(s, st, i)
    requires p == SpansFrom(s, i, max, st, count)
    ensures CountsHold(s, i, max, count, p)
    decreases |s| - i, 1
  {
    if i < |s| {
      if SgrLen(s, i) > 0 {
        CountsEscape(s, i, max, st, count, p);
      } else if count + 1 >= max {
        CountsFlush(s, i, max, st, count, p);
      } else {
        CountsGrow(s, i, max, st, count, p);
      }
    }
  }

  lemma {:induction false} CountsEscape(s: string, i: nat, max: int, st: nat, count: int, p: seq<Span>)
    requires max >= 1
    requires st <= i < |s| && OutsideEscapes(s, i) && SgrLen(s, i) > 0
    requires 0 <= count < max && count == CountVisible(s, st, i)
    requires p == SpansFrom(s, i, max, st, count)
    ensures CountsHold(s, i, max, count, p)
    decreases |s| - i, 0
  {
    SpansFromStep(s, i, max, st, count);
    EscapeStep(s, st, i, count);
    CountsSkip(s, i, i + SgrLen(s, i), max, st, count, p);
  }

  /** Stepping over an escape sequence keeps the scan outside escapes and
      adds no visible character, before or after the scan position. */
  lemma EscapeStep(s: string, st: nat, i: nat, count: int)
    requires st <= i < |s| && OutsideEscapes(s, i) && SgrLen(s, i) > 0
    requires count == CountVisible(s, st, i)
    ensures OutsideEscapes(s, i + SgrLen(s, i))
    ensures count == CountVisible(s, st, i + SgrLen(s, i))
    ensures CountVisible(s, i, |s|) == CountVisible(s, i + SgrLen(s, i), |s|)
  {
    StepEscape(s, i);
    InsideEscape(s, i, i);
    CountVisibleSplit(s, st, i, i + SgrLen(s, i));
    EscapeCountsNothing(s, i);
  }

  /** The counts at `j` hold at `i` too when no visible character lies
      between them. */
  lemma {:induction false} CountsSkip(s: string, i: nat, j: nat, max: int, st: nat, count: int, p: seq<Span>)
    requires max >= 1
    requires st <= i < j <= |s| && OutsideEscapes(s, j)
    requires 0 <= count < max && count == CountVisible(s, st, j)
    requires p == SpansFrom(s, j, max, st, count)
    requires CountVisible(s, i, |s|) == CountVisible(s, j, |s|)
    ensures CountsHold(s, i, max, count, p)
    decreases |s| - j, 2
  {
    SpansCountsFrom(s, j, max, st, count, p);
  }

  /** Skipping an escape sequence leaves the visible count of the rest unchanged. */
  lemma EscapeCountsNothing(s: string, i: nat)
    requires i < |s| && SgrLen(s, i) > 0
    ensures CountVisible(s, i, |s|) == CountVisible(s, i + SgrLen(s, i), |s|)
  {
    InsideEscape(s, i, i);
    CountVisibleSplit(s, i, i + SgrLen(s, i), |s|);
  }

  lemma {:induction false} CountsFlush(s: string, i: nat, max: int, st: nat, count: int, p: seq<Span>)
    requires max >= 1
    requires st <= i < |s| && OutsideEscapes(s, i) && SgrLen(s, i) == 0
    requires 0 <= count < max && count == CountVisible(s, st, i) && count + 1 >= max
    requires p == SpansFrom(s, i, max, st, count)
    ensures CountsHold(s, i, max, count, p)
    decreases |s| - i, 0
  {
    var q := SpansFrom(s, i + 1, max, i + 1, 0);
    assert p == [Span(st, i + 1)] + q;
    StepVisible(s, i);
    assert Visible(s, i);
    CountVisibleSplit(s, st, i, i + 1);
    SpansCountsFrom(s, i + 1, max, i + 1, 0, q);
    CountsCons(s, i, max, st, count, q);
  }

  /** A full span `s[st..i + 1]` in front of the spans that follow it. */
  lemma CountsCons(s: string, i: nat, max: int, st: nat, count: int, q: seq<Span>)
    requires st <= i < |s| && Visible(s, i) && count + 1 == max
    requires CountVisible(s, st, i + 1) == max
    requires CountsHold(s, i + 1, max, 0, q)
    ensures CountsHold(s, i, max, count, [Span(st, i + 1)] + q)
  {
    BoundedCons(s, Span(st, i + 1), q);
    FullSpansCons(s, max, Span(st, i + 1), q);
    TallyCons(s, i, max, st, count, q);
  }

  lemma BoundedCons(s: string, x: Span, q: seq<Span>)
    requires x.lo <= x.hi <= |s| && Bounded(s, q)
    ensures Bounded(s, [x] + q)
  {
    var p := [x] + q;
    forall k | 0 < k < |p|
      ensures p[k].lo <= p[k].hi <= |s|
    {
      assert p[k] == q[k - 1];
    }
  }

  lemma FullSpansCons(s: string, max: int, x: Span, q: seq<Span>)
    requires x.lo < x.hi <= |s| && Bounded(s, q) && Bounded(s, [x] + q)
    requires CountVisible(s, x.lo, x.hi) == max && Visible(s, x.hi - 1)
    requires FullSpans(s, max, q)
    ensures FullSpans(s, max, [x] + q)
  {
    var p := [x] + q;
    assert FullSpan(s, max, x);
    forall k | 0 <= k < |p| - 1
      ensures FullSpan(s, max, p[k])
    {
      if k == 0 {
        assert p[k] == x;
      } else {
        assert p[k] == q[k - 1];
      }
    }
  }

  lemma TallyCons(s: string, i: nat, max: int, st: nat, count: int, q: seq<Span>)
    requires st <= i < |s| && Visible(s, i) && count + 1 == max
    requires Bounded(s, q) && Bounded(s, [Span(st, i + 1)] + q)
    requires Tally(s, i + 1, max, 0, q)
    ensures Tally(s, i, max, count, [Span(st, i + 1)] + q)
  {
    var p := [Span(st, i + 1)] + q;
    assert p[|p| - 1] == q[|q| - 1];
    assert CountVisible(s, i, |s|) == 1 + CountVisible(s, i + 1, |s|);
    assert Times(|p| - 1, max) == max + Times(|q| - 1, max);
  }

  lemma {:induction false} CountsGrow(s: string, i: nat, max: int, st: nat, count: int, p: seq<Span>)
    requires max >= 1
    requires st <= i < |s| && OutsideEscapes(s, i) && SgrLen(s, i) == 0
    requires 0 <= count < max && count == CountVisible(s, st, i) && count + 1 < max
    requires p == SpansFrom(s, i, max, st, count)
    ensures CountsHold(s, i, max, count, p)
    decreases |s| - i, 0
  {
    SpansFromStep(s, i, max, st, count);
    StepVisible(s, i);
    CountVisibleSplit(s, st, i, i + 1);
    SpansCountsFrom(s, i + 1, max, st, count + 1, p);
    CountsStep(s, i, max, count, p);
  }

  /** One more visible character, counted into the chunk under construction. */
  lemma CountsStep(s: string, i: nat, max: int, count: int, p: seq<Span>)
    requires i < |s| && Visible(s, i)
    requires CountsHold(s, i + 1, max, count + 1, p)
    ensures CountsHold(s, i, max, count, p)
  {
    assert CountVisible(s, i, |s|) == 1 + CountVisible(s, i + 1, |s|);
  }
}
