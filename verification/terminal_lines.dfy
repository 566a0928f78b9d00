/** The terminal line buffer: one output fragment at a time is folded into the
    list of display lines (frontend/src/components/updateTerminalLines.js). */
module TerminalLines {
  import opened Strings

  /** The buffer keeps at most this many lines, the newest ones. */
  const MaxLines: nat := 500

  predicate StartsWithCR(output: string) {
    |output| > 0 && output[0] == '\r'
  }

  predicate EndsWithNewline(line: string) {
    |line| > 0 && line[|line| - 1] == '\n'
  }

  /** True when the first segment of a non-carriage-return fragment
      continues the last line instead of starting a new one. */
  predicate Continues(lines: seq<string>) {
    |lines| > 0 && !EndsWithNewline(lines[|lines| - 1])
  }

  /** The last `MaxLines` lines (all of them when there are no more). */
  function Cap(lines: seq<string>): (r: seq<string>)
    ensures |r| <= MaxLines
    ensures |lines| <= MaxLines ==> r == lines
    ensures |lines| > MaxLines ==> |r| == MaxLines && lines == lines[..|lines| - MaxLines] + r
  {
    if |lines| > MaxLines then lines[|lines| - MaxLines..] else lines
  }

  /** The lines after one fragment, before the cap: a fragment that starts
      with a carriage return replaces the last line by the rest of the
      fragment, verbatim; any other fragment is cut at its newlines, its
      first piece continues an unterminated last line and the other pieces
      become new lines. */
  function Appended(lines: seq<string>, output: string): seq<string>
  {
    if StartsWithCR(output) then
      (if |lines| == 0 then [] else lines[..|lines| - 1]) + [output[1..]]
    else
      var pieces := Split(output, "\n");
      if Continues(lines) then
        lines[..|lines| - 1] + [lines[|lines| - 1] + pieces[0]] + pieces[1..]
      else
        lines + pieces
  }

  /** `updateTerminalLines(lines, output)`. */
  function Update(lines: seq<string>, output: string): seq<string>
  {
    Cap(Appended(lines, output))
  }

  /** The source's loop: copy the lines, pop/push or `+=` piece by piece,
      then keep the newest `MaxLines`. The input sequence is a value, so the
      caller's list is never changed. */
  method UpdateTerminalLines(lines: seq<string>, output: string) returns (updatedLines: seq<string>)
    ensures updatedLines == Update(lines, output)
  {
    updatedLines := lines;
    var out := output;
    if |out| > 0 && out[0] == '\r' {
      out := out[1..];
      if |updatedLines| == 0 {
        updatedLines := updatedLines + [out];
      } else {
        updatedLines := updatedLines[..|updatedLines| - 1];
        updatedLines := updatedLines + [out];
      }
      assert updatedLines == Appended(lines, output);
    } else {
      updatedLines := PushPieces(updatedLines, out);
    }
    if |updatedLines| > 500 {
      updatedLines := updatedLines[|updatedLines| - 500..];
    }
  }

  /** The `forEach` over `output.split('\n')`: the first piece continues
      an unterminated last line, every other piece is pushed as a line. */
  method PushPieces(lines0: seq<string>, output: string) returns (lines: seq<string>)
    requires !StartsWithCR(output)
    ensures lines == Appended(lines0, output)
  {
    lines := lines0;
    var lastLineEndsWithNewline := |lines| > 0 && EndsWithNewline(lines[|lines| - 1]);
    var splitLines := Split(output, "\n");
    ghost var first := FirstPushed(lines0, splitLines[0]);
    assert (|lines0| > 0 && !lastLineEndsWithNewline) == Continues(lines0);
    for idx := 0 to |splitLines|
      invariant idx == 0 ==> lines == lines0
      invariant idx > 0 ==> lines == first + splitLines[1..idx]
    {
      var line := splitLines[idx];
      if idx == 0 && |lines| > 0 && !lastLineEndsWithNewline {
        lines := lines[..|lines| - 1] + [lines[|lines| - 1] + line];
      } else {
        lines := lines + [line];
      }
      if idx > 0 {
        assert splitLines[1..idx + 1] == splitLines[1..idx] + [line];
      } else {
        assert lines == first && first + splitLines[1..1] == first;
      }
    }
    assert splitLines[1..|splitLines|] == splitLines[1..];
    FirstPushedRest(lines0, splitLines);
  }

  /** The buffer after the first piece of a fragment. */
  ghost function FirstPushed(lines: seq<string>, piece: string): seq<string>
  {
    if Continues(lines) then lines[..|lines| - 1] + [lines[|lines| - 1] + piece] else lines + [piece]
  }

  lemma FirstPushedRest(lines: seq<string>, pieces: seq<string>)
    requires |pieces| >= 1
    ensures FirstPushed(lines, pieces[0]) + pieces[1..]
            == if Continues(lines) then lines[..|lines| - 1] + [lines[|lines| - 1] + pieces[0]] + pieces[1..]
               else lines + pieces
  {
    assert pieces == [pieces[0]] + pieces[1..];
  }

  /** A carriage-return fragment replaces only the last line, by the fragment
      without its one leading carriage return; on an empty buffer it gives
      exactly one line. The line count does not change before the cap, even
      when the rest holds newlines. */
  lemma CarriageReturnOverwrites(lines: seq<string>, output: string)
    requires StartsWithCR(output)
    ensures |Appended(lines, output)| == if |lines| == 0 then 1 else |lines|
    ensures |lines| > 0 ==> Appended(lines, output)[..|lines| - 1] == lines[..|lines| - 1]
    ensures Appended(lines, output)[|Appended(lines, output)| - 1] == output[1..]
  {
  }

  /** A fragment without a leading carriage return that holds k newlines adds
      k lines when it continues the last line and k + 1 lines otherwise
      (before the cap), and leaves every line but the last untouched. */
  lemma {:induction false} NewlineCount(lines: seq<string>, output: string)
    requires !StartsWithCR(output)
    ensures |Appended(lines, output)| == |lines| + Count(output, '\n') + (if Continues(lines) then 0 else 1)
    ensures Continues(lines) ==> Appended(lines, output)[..|lines| - 1] == lines[..|lines| - 1]
    ensures !Continues(lines) ==> Appended(lines, output)[..|lines|] == lines
  {
    SplitOnChar(output, '\n');
    assert "\n" == ['\n'];
  }

  /** Continuation: the first piece is glued onto an unterminated last line,
      so `["ab"]` followed by `"cd\nef"` gives `["abcd", "ef"]`. */
  lemma ContinuationExample()
    ensures Update(["ab"], "cd\nef") == ["abcd", "ef"]
  {
    SplitPrefix("cd", "ef", '\n');
    SplitWithoutSep("ef", '\n');
    assert "cd" + ['\n'] + "ef" == "cd\nef";
    assert Split("cd\nef", "\n") == ["cd", "ef"];
    assert !EndsWithNewline("ab");
    assert "ab" + "cd" == "abcd";
    assert ["cd", "ef"][1..] == ["ef"];
    assert Appended(["ab"], "cd\nef") == [] + ["abcd"] + ["ef"];
  }

  /** A carriage return replaces a last line "abc" by the new text instead
      of adding a line. */
  lemma OverwriteExample()
    ensures Update(["abc"], "\rXYZ") == ["XYZ"]
  {
  }

  /** When lines hold no newline characters (as every line the newline path
      produces), a fragment without a leading carriage return extends the
      text the lines spell out: joined with newlines, the lines after the
      fragment are the lines before it followed by the fragment. */
  lemma {:induction false} TextExtends(lines: seq<string>, output: string)
    requires !StartsWithCR(output)
    requires |lines| > 0
    requires forall i | 0 <= i < |lines| :: '\n' !in lines[i]
    ensures Join(Appended(lines, output), "\n") == Join(lines, "\n") + output
  {
    var n := |lines|;
    var last := lines[n - 1];
    var pieces := Split(output, "\n");
    var init := lines[..n - 1];
    var tail := [last + pieces[0]] + pieces[1..];
    assert !EndsWithNewline(last) by {
      assert '\n' !in lines[n - 1];
    }
    assert Appended(lines, output) == init + tail;
    TailJoin(last, output);
    assert lines == init + [last];
    if init == [] {
      assert init + tail == tail;
      assert Join(lines, "\n") == last;
    } else {
      JoinConcat(init, tail);
      JoinConcat(init, [last]);
    }
  }

  /** The fragment's first piece continues the last line: joined, the
      result is the last line followed by the fragment. */
  lemma TailJoin(last: string, output: string)
    ensures var pieces := Split(output, "\n");
            Join([last + pieces[0]] + pieces[1..], "\n") == last + output
  {
    var pieces := Split(output, "\n");
    JoinPrepend(last, pieces[0], pieces[1..], "\n");
    assert [pieces[0]] + pieces[1..] == pieces;
    JoinSplit(output, "\n");
  }

  /** On an empty buffer a fragment without a leading carriage return becomes
      its own newline-separated pieces, which join back to the fragment. */
  lemma EmptyBufferText(output: string)
    requires !StartsWithCR(output)
    ensures Join(Appended([], output), "\n") == output
  {
    JoinSplit(output, "\n");
    assert Appended([], output) == Split(output, "\n");
  }

  lemma {:induction false} JoinConcat(a: seq<string>, b: seq<string>)
    requires |b| > 0
    ensures Join(a + b, "\n") == if a == [] then Join(b, "\n") else Join(a, "\n") + "\n" + Join(b, "\n")
  {
    if |a| > 0 {
      assert (a + b)[1..] == a[1..] + b;
      JoinConcat(a[1..], b);
    } else {
      assert a + b == b;
    }
  }

  /** The lines of a buffer fed a sequence of fragments, starting from `lines`. */
  function Feed(lines: seq<string>, outputs: seq<string>): seq<string>
    decreases |outputs|
  {
    if outputs == [] then lines else Feed(Update(lines, outputs[0]), outputs[1..])
  }

  /** Feeding `k` one-line fragments ("text\n" each, without carriage
      returns) to a buffer of `n <= 500` lines that ends in a newline (its
      last line is empty, as after any earlier one-line fragment) leaves
      min(n + k, 500) lines, the oldest evicted first. The empty initial
      buffer `[]` does not end in a newline and is not covered. */
  lemma {:induction false} FeedSingleLines(lines: seq<string>, outputs: seq<string>)
    requires |lines| > 0 && lines[|lines| - 1] == []
    requires forall i | 0 <= i < |outputs| :: OneLine(outputs[i])
    ensures |lines| <= MaxLines ==> |Feed(lines, outputs)| == Min(|lines| + |outputs|, MaxLines)
    decreases |outputs|
  {
    if outputs != [] {
      var o := outputs[0];
      OneLineAppend(lines, o);
      FeedSingleLines(Update(lines, o), outputs[1..]);
    }
  }

  /** A fragment of one line: text without newline or leading carriage
      return, followed by one newline. */
  predicate OneLine(o: string) {
    |o| > 0 && o[|o| - 1] == '\n' && '\n' !in o[..|o| - 1] && !StartsWithCR(o)
  }

  function Min(a: int, b: int): int { if a <= b then a else b }

  lemma OneLineAppend(lines: seq<string>, o: string)
    requires |lines| > 0 && lines[|lines| - 1] == []
    requires OneLine(o)
    ensures |Appended(lines, o)| == |lines| + 1
    ensures Appended(lines, o)[|lines|] == []
    ensures |lines| <= MaxLines ==> |Update(lines, o)| == Min(|lines| + 1, MaxLines)
    ensures Update(lines, o)[|Update(lines, o)| - 1] == []
  {
    var text := o[..|o| - 1];
    assert o == text + ['\n'] + [];
    SplitPrefix(text, [], '\n');
    assert Split([], "\n") == [[]];
  }
}
