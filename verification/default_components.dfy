/** The two pieces of components/default.py that do not talk to a network
    or a database: its own `split_by_const`, which always overlaps by half
    a window, and `default_augmenter`, which builds the prompt context. */
module DefaultComponents {
  import opened Wrappers
  import opened Strings
  import Splitters

  /** What this `split_by_const` returns. Below a window of one character
      the source loop never ends on a text longer than the window, so such
      calls are excluded. */
  function DefaultChunks(text: string, maxLen: int): seq<string>
    requires maxLen >= 1 || maxLen >= |text|
  {
    if maxLen >= |text| then [text] else Splitters.ChunksFrom(text, maxLen, maxLen / 2, 0)
  }

  /** `split_by_const(text, max_len, overlap_len)`: the overlap argument is
      replaced by `max_len // 2` before the loop. */
  method SplitByConst(text: string, maxLen: int, overlapLen: int) returns (res: seq<string>)
    requires maxLen >= 1 || maxLen >= |text|
    ensures res == DefaultChunks(text, maxLen)
  {
    var end := |text|;
    if maxLen >= end {
      return [text];
    }
    var overlap := maxLen / 2;
    ghost var target := Splitters.ChunksFrom(text, maxLen, overlap, 0);
    res := [];
    var start: nat := 0;
    while start < |text|
      invariant res + Splitters.ChunksFrom(text, maxLen, overlap, start) == target
      decreases |text| - start
    {
      end := Splitters.Min(start + maxLen, |text|);
      Splitters.LoopStep(text, maxLen, overlap, start, res);
      res := res + [Splitters.PySlice(text, start, end)];
      if end == |text| {
        return;
      }
      start := end - overlap;
    }
    assert res + [] == res;
  }

  /** This variant is the general splitter with half a window of overlap,
      whatever overlap the caller asked for; so it never raises, and its
      chunks rebuild the text, hold at most `maxLen` characters each, all
      but the last exactly `maxLen`, and overlap by `maxLen / 2`. */
  lemma DefaultIsHalfOverlap(text: string, maxLen: int)
    requires maxLen >= 1
    ensures Splitters.Chunked(text, maxLen, maxLen / 2) == Ok(DefaultChunks(text, maxLen))
    ensures var cs := DefaultChunks(text, maxLen);
            Splitters.Rebuild(cs, maxLen / 2) == text
            && Splitters.EndsWithText(text, cs[|cs| - 1])
            && (maxLen < |text| ==>
                  (forall i | 0 <= i < |cs| :: |cs[i]| <= maxLen)
                  && (forall i | 0 <= i < |cs| - 1 :: |cs[i]| == maxLen)
                  && Splitters.Overlapping(cs, maxLen / 2))
  {
    Splitters.ChunkedProperties(text, maxLen, maxLen / 2);
  }

  const AugmentHead: string := "По запросу '"
  const AugmentTail: string := "' найдена следующая информация:\n"

  /** `default_augmenter(query, documents)`, over the documents' contents:
      a fixed sentence quoting the query, then the documents separated by
      blank lines. */
  function Augment(query: string, documents: seq<string>): (r: string)
    ensures StartsWith(r, AugmentHead + query + AugmentTail)
    ensures documents == [] ==> r == AugmentHead + query + AugmentTail
    ensures |documents| == 1 ==> r == AugmentHead + query + AugmentTail + documents[0]
  {
    AugmentHead + query + AugmentTail + Join(documents, "\n\n")
  }

  /** The last document closes the text. */
  lemma {:induction false} JoinEndsWithLast(parts: seq<string>, sep: string)
    requires |parts| > 0
    ensures EndsWith(Join(parts, sep), parts[|parts| - 1])
  {
    if |parts| > 1 {
      JoinEndsWithLast(parts[1..], sep);
      assert parts[1..][|parts| - 2] == parts[|parts| - 1];
    }
  }

  lemma AugmentEndsWithLastDocument(query: string, documents: seq<string>)
    requires documents != []
    ensures EndsWith(Augment(query, documents), documents[|documents| - 1])
  {
    JoinEndsWithLast(documents, "\n\n");
  }

  /** One more document adds a blank line and its content at the end. */
  lemma AugmentOneMore(query: string, documents: seq<string>, d: string)
    requires documents != []
    ensures Augment(query, documents + [d]) == Augment(query, documents) + "\n\n" + d
  {
    JoinAppend(documents, d, "\n\n");
  }
}
