/** The table of stored runs of a config (frontend/src/components/CalculationsTablePopup.js):
    the badge colour of a status, the replay of a stored output through the
    terminal line update, and the one-shot reply to `list_calculations`. */
module CalculationsTablePopup {
  import opened Wrappers
  import opened Strings
  import opened Json
  import TerminalLines

  /** `statusColor[status] || "secondary"`. */
  function StatusColor(status: Json): (colour: string)
    ensures ToStr(status) == "ok" ==> colour == "success"
    ensures ToStr(status) == "fail" || ToStr(status) == "error" ==> colour == "danger"
    ensures ToStr(status) == "running" ==> colour == "warning"
    ensures ToStr(status) !in {"ok", "fail", "error", "running"} ==> colour == "secondary"
  {
    var key := ToStr(status);
    if key == "ok" then "success"
    else if key == "fail" || key == "error" then "danger"
    else if key == "running" then "warning"
    else if key == "idle" then "secondary"
    else "secondary"
  }

  /** U+200B ZERO WIDTH SPACE, the marker the replay puts before each newline. */
  const Zwsp: char := '\U{200B}'

  /** The stored output with every newline marked and every carriage return
      moved to the start of a segment of its own. */
  function Marked(output: string): string
  {
    ReplaceChar(ReplaceChar(output, '\n', [Zwsp, '\n']), '\r', ['\n', '\r'])
  }

  /** The lines after feeding each segment, its markers turned back into
      newlines, to `updateTerminalLines`, starting from `lines`. */
  function Replay(lines: seq<string>, segments: seq<string>): seq<string>
    decreases |segments|
  {
    if segments == [] then lines
    else Replay(TerminalLines.Update(lines, ReplaceChar(segments[0], Zwsp, "\n")), segments[1..])
  }

  /** `processedOutput` of one stored run: `calc.output || ""`, marked, split
      on newlines, replayed from no lines and joined with newlines. A truthy
      output that is not a string throws, having no `replaceAll`. */
  function ProcessedOutput(calcOutput: Json): Result<string>
  {
    var text := if Truthy(calcOutput) then calcOutput else Str("");
    if text.Str? then Ok(Join(Replay([], Split(Marked(text.s), "\n")), "\n"))
    else Raise(Exception("TypeError", "replaceAll is not a function"))
  }

  /** The replay loop as the source writes it. */
  method ProcessOutput(output: string) returns (processedOutput: string)
    ensures Ok(processedOutput) == ProcessedOutput(Str(output))
  {
    var outputTmp := ReplaceChar(ReplaceChar(output, '\n', [Zwsp, '\n']), '\r', ['\n', '\r']);
    var linesArr := Split(outputTmp, "\n");
    var processedLines := [];
    for i := 0 to |linesArr|
      invariant Replay(processedLines, linesArr[i..]) == Replay([], linesArr)
    {
      assert linesArr[i..][1..] == linesArr[i + 1..];
      processedLines := TerminalLines.Update(processedLines, ReplaceChar(linesArr[i], Zwsp, "\n"));
    }
    processedOutput := Join(processedLines, "\n");
  }

  /** The pieces of a newline-split output, each marked but the last. */
  function Tagged(parts: seq<string>): (r: seq<string>)
    ensures |r| == |parts|
  {
    if |parts| <= 1 then parts else [parts[0] + [Zwsp]] + Tagged(parts[1..])
  }

  /** Plain text, without carriage returns or marker characters, that fits
      in the buffer comes back unchanged: the replay is the identity on it. */
  lemma ReplayPlainText(output: string)
    requires '\r' !in output && Zwsp !in output
    requires Count(output, '\n') < TerminalLines.MaxLines
    ensures ProcessedOutput(Str(output)) == Ok(output)
    ensures output == "" ==> ProcessedOutput(Null) == Ok("")
  {
    var parts := Split(output, "\n");
    SplitOnChar(output, '\n');
    assert "\n" == ['\n'];
    forall i | 0 <= i < |parts|
      ensures Plain(parts[i])
    {
      SplitPiecesFrom(output, '\n', i);
    }
    AllPlainFromEach(parts);
    JoinSplit(output, "\n");
    MarkNewlines(parts);
    var marked1 := ReplaceChar(output, '\n', [Zwsp, '\n']);
    ReplaceCharKeepsOut(output, '\n', [Zwsp, '\n'], '\r');
    assert Marked(output) == Join(Tagged(parts), "\n");
    TaggedHasNoNewline(parts);
    SplitJoin(Tagged(parts), '\n');
    ReplayFresh(parts);
  }

  /** Every piece of a split is made of characters of the input. */
  lemma {:induction false} SplitPiecesFrom(s: string, c: char, i: nat)
    requires i < |Split(s, [c])|
    ensures forall x | x in Split(s, [c])[i] :: x in s
    decreases |s|
  {
    if |s| >= 1 {
      assert s[..1] == [s[0]];
      var rest := Split(s[1..], [c]);
      if s[0] == c {
        if i > 0 {
          SplitPiecesFrom(s[1..], c, i - 1);
        }
      } else if i == 0 {
        SplitPiecesFrom(s[1..], c, 0);
      } else {
        SplitPiecesFrom(s[1..], c, i);
      }
    }
  }

  /** Marking the newlines of a join of plain pieces marks the end of each
      piece but the last. */
  lemma {:induction false} MarkNewlines(parts: seq<string>)
    requires |parts| >= 1
    requires forall i | 0 <= i < |parts| :: '\n' !in parts[i]
    ensures ReplaceChar(Join(parts, "\n"), '\n', [Zwsp, '\n']) == Join(Tagged(parts), "\n")
  {
    if |parts| > 1 {
      var nl: string := ['\n'];
      var mark: string := [Zwsp, '\n'];
      var j := Join(parts[1..], nl);
      var tj := Join(Tagged(parts[1..]), nl);
      MarkNewlines(parts[1..]);
      assert ReplaceChar(j, '\n', mark) == tj;
      assert Join(parts, nl) == parts[0] + (nl + j);
      ReplaceCharAppend(parts[0], nl + j, '\n', mark);
      ReplaceCharAppend(nl, j, '\n', mark);
      assert ReplaceChar(nl, '\n', mark) == mark;
      assert ReplaceChar(parts[0], '\n', mark) == parts[0];
      assert Tagged(parts) == [parts[0] + [Zwsp]] + Tagged(parts[1..]);
      assert Join(Tagged(parts), nl) == parts[0] + (mark + tj);
    }
  }

  lemma {:induction false} TaggedHasNoNewline(parts: seq<string>)
    requires forall i | 0 <= i < |parts| :: '\n' !in parts[i]
    ensures forall i | 0 <= i < |Tagged(parts)| :: '\n' !in Tagged(parts)[i]
  {
    if |parts| > 1 {
      TaggedHasNoNewline(parts[1..]);
      forall i | 0 < i < |Tagged(parts)|
        ensures '\n' !in Tagged(parts)[i]
      {
        assert Tagged(parts)[i] == Tagged(parts[1..])[i - 1];
      }
    }
  }

  /** Replaying the tagged pieces from no lines gives the pieces. */
  lemma {:induction false} ReplayFresh(parts: seq<string>)
    requires 1 <= |parts| <= TerminalLines.MaxLines
    requires AllPlain(parts)
    ensures Replay([], Tagged(parts)) == parts
  {
    var p := parts[0];
    if |parts| == 1 {
      assert ReplaceChar(p, Zwsp, "\n") == p;
      LineAlone(p);
      assert Replay([], Tagged(parts)) == Replay(TerminalLines.Update([], p), []);
    } else {
      PieceLine(p);
      FirstLineBreak(p);
      var tagged := Tagged(parts);
      assert tagged[0] == p + [Zwsp] && tagged[1..] == Tagged(parts[1..]);
      assert Replay([], tagged) == Replay([p] + [""], Tagged(parts[1..]));
      ReplayContinues([p], parts[1..]);
      assert [p] + parts[1..] == parts;
    }
  }

  lemma PieceLine(p: string)
    requires Zwsp !in p
    ensures ReplaceChar(p + [Zwsp], Zwsp, "\n") == p + "\n"
  {
    ReplaceCharAppend(p, [Zwsp], Zwsp, "\n");
  }

  /** A piece without newline on an empty buffer is one line. */
  lemma LineAlone(p: string)
    requires '\n' !in p && '\r' !in p
    ensures TerminalLines.Update([], p) == [p]
  {
    SplitWithoutSep(p, '\n');
    assert "\n" == ['\n'];
    if |p| > 0 {
      assert p[0] in p;
    }
  }

  /** A piece and a newline on an empty buffer: the piece, then an empty line. */
  lemma FirstLineBreak(p: string)
    requires '\n' !in p && '\r' !in p
    ensures TerminalLines.Update([], p + "\n") == [p] + [""]
  {
    SplitBreak(p);
    if |p| > 0 {
      assert p[0] in p;
    }
    assert (p + "\n")[0] != '\r';
  }

  lemma SplitBreak(p: string)
    requires '\n' !in p
    ensures Split(p + "\n", "\n") == [p, ""]
  {
    SplitPrefix(p, [], '\n');
    assert p + "\n" == p + ['\n'] + [];
    assert Split([], ['\n']) == [[]];
    assert "\n" == ['\n'];
  }

  /** The last piece fills the empty line being written. */
  lemma FillLast(done: seq<string>, p: string)
    requires |done| + 1 <= TerminalLines.MaxLines
    requires '\n' !in p && '\r' !in p
    ensures TerminalLines.Update(done + [""], p) == done + [p]
  {
    var lines := done + [""];
    SplitWithoutSep(p, '\n');
    assert "\n" == ['\n'];
    if |p| > 0 {
      assert p[0] in p;
    }
    assert TerminalLines.Continues(lines);
    assert lines[..|lines| - 1] == done;
    assert lines[|lines| - 1] + p == p;
  }

  /** A piece with its newline fills the empty line and opens a new one. */
  lemma FillAndBreak(done: seq<string>, p: string)
    requires |done| + 2 <= TerminalLines.MaxLines
    requires '\n' !in p && '\r' !in p
    ensures TerminalLines.Update(done + [""], p + "\n") == done + [p] + [""]
  {
    var lines := done + [""];
    SplitBreak(p);
    if |p| > 0 {
      assert p[0] in p;
    }
    assert (p + "\n")[0] != '\r';
    assert TerminalLines.Continues(lines);
    assert lines[..|lines| - 1] == done;
    assert lines[|lines| - 1] + p == p;
    assert [p, ""][1..] == [""];
  }

  /** From lines `done` and an empty line being written, each tagged piece
      fills the empty line and, but for the last, opens a new one. */
  lemma {:induction false} ReplayContinues(done: seq<string>, parts: seq<string>)
    requires 1 <= |parts| && |done| + |parts| <= TerminalLines.MaxLines
    requires AllPlain(parts)
    ensures Replay(done + [""], Tagged(parts)) == done + parts
    decreases |parts|
  {
    if |parts| == 1 {
      ReplayLastPiece(done, parts);
    } else {
      ReplayContinues(done + [parts[0]], parts[1..]);
      ReplayStep(done, parts);
    }
  }

  /** One step of the replay above: the first piece, then the rest. */
  lemma ReplayStep(done: seq<string>, parts: seq<string>)
    requires |parts| >= 2 && |done| + |parts| <= TerminalLines.MaxLines
    requires Plain(parts[0])
    requires Replay(done + [parts[0]] + [""], Tagged(parts[1..])) == done + [parts[0]] + parts[1..]
    ensures Replay(done + [""], Tagged(parts)) == done + parts
  {
    ReplayNextPiece(done, parts);
    FirstThenRest(done, parts);
  }

  lemma FirstThenRest(done: seq<string>, parts: seq<string>)
    requires |parts| >= 1
    ensures done + [parts[0]] + parts[1..] == done + parts
  {
    assert parts == [parts[0]] + parts[1..];
  }

  /** No piece holds a newline, a carriage return or a marker. */
  predicate AllPlain(parts: seq<string>)
  {
    parts == [] || (Plain(parts[0]) && AllPlain(parts[1..]))
  }

  predicate Plain(p: string)
  {
    '\n' !in p && '\r' !in p && Zwsp !in p
  }

  lemma {:induction false} AllPlainFromEach(parts: seq<string>)
    requires forall i | 0 <= i < |parts| :: Plain(parts[i])
    ensures AllPlain(parts)
  {
    if parts != [] {
      AllPlainFromEach(parts[1..]);
    }
  }

  lemma ReplayLastPiece(done: seq<string>, parts: seq<string>)
    requires |parts| == 1 && |done| + 1 <= TerminalLines.MaxLines
    requires '\n' !in parts[0] && '\r' !in parts[0] && Zwsp !in parts[0]
    ensures Replay(done + [""], Tagged(parts)) == done + parts
  {
    var p := parts[0];
    assert Tagged(parts) == parts == [p];
    assert ReplaceChar(p, Zwsp, "\n") == p;
    FillLast(done, p);
    assert [p][1..] == [];
    assert Replay(done + [""], [p]) == Replay(done + [p], []);
  }

  lemma ReplayNextPiece(done: seq<string>, parts: seq<string>)
    requires |parts| >= 2 && |done| + 2 <= TerminalLines.MaxLines
    requires '\n' !in parts[0] && '\r' !in parts[0] && Zwsp !in parts[0]
    ensures Replay(done + [""], Tagged(parts)) == Replay(done + [parts[0]] + [""], Tagged(parts[1..]))
  {
    var p := parts[0];
    PieceLine(p);
    FillAndBreak(done, p);
    var tagged := Tagged(parts);
    assert tagged[0] == p + [Zwsp] && tagged[1..] == Tagged(parts[1..]);
  }

  /** A carriage return in a stored run overwrites the line before it:
      `"a\rb"` shows as `"b"`. */
  lemma CarriageReturnExample()
    ensures ProcessedOutput(Str("a\rb")) == Ok("b")
  {
    var segments := ["a", "\rb"];
    MarkedExample();
    SplitExample();
    assert ReplaceChar("a", Zwsp, "\n") == "a";
    assert ReplaceChar("\rb", Zwsp, "\n") == "\rb";
    LineAlone("a");
    assert TerminalLines.Update(["a"], "\rb") == ["b"];
    assert segments[1..][1..] == [];
    assert Replay([], segments) == Replay(["a"], segments[1..]);
    assert Replay(["a"], segments[1..]) == Replay(["b"], []);
  }

  /** A carriage return followed by text `c` (no newline, carriage
      return or marker) at the end of a stored output is replayed as one
      more `updateTerminalLines` call with `"\r" + c` on the lines of the
      output before it. */
  lemma ReplayCarriageReturn(s: string, c: string)
    requires '\r' !in c && '\n' !in c && Zwsp !in c
    ensures Replay([], Split(Marked(s + "\r" + c), "\n"))
            == TerminalLines.Update(Replay([], Split(Marked(s), "\n")), "\r" + c)
  {
    var t := "\r" + c;
    MarkedCarriageReturn(s, c);
    assert Marked(s) + "\n\r" + c == Marked(s) + ['\n'] + t;
    assert '\n' !in t by {
      assert forall i | 0 < i < |t| :: t[i] == c[i - 1];
    }
    SplitSuffix(Marked(s), t, '\n');
    assert "\n" == ['\n'];
    ReplayAppend([], Split(Marked(s), "\n"), t);
    assert Zwsp !in t by {
      assert forall i | 0 < i < |t| :: t[i] == c[i - 1];
    }
  }

  /** So the replayed display of such an output is the display of the
      output before it with only the last line replaced, by `c`. */
  lemma CarriageReturnOverwritesReplay(s: string, c: string)
    requires '\r' !in c && '\n' !in c && Zwsp !in c
    ensures var before := Replay([], Split(Marked(s), "\n"));
            var after := Replay([], Split(Marked(s + "\r" + c), "\n"));
            1 <= |before| && |after| == |before|
            && after[..|after| - 1] == before[..|before| - 1]
            && after[|after| - 1] == c
  {
    var before := Replay([], Split(Marked(s), "\n"));
    ReplayBounded([], Split(Marked(s), "\n"));
    ReplayCarriageReturn(s, c);
    TerminalLines.CarriageReturnOverwrites(before, "\r" + c);
    assert ("\r" + c)[1..] == c;
  }

  /** A marked output with a carriage return and `c` appended. */
  lemma MarkedCarriageReturn(s: string, c: string)
    requires '\r' !in c && '\n' !in c
    ensures Marked(s + "\r" + c) == Marked(s) + "\n\r" + c
  {
    var t := "\r" + c;
    var mark: string := [Zwsp, '\n'];
    assert s + "\r" + c == s + t;
    assert '\n' !in t by {
      assert forall i | 0 < i < |t| :: t[i] == c[i - 1];
    }
    ReplaceCharAppend(s, t, '\n', mark);
    var m := ReplaceChar(s, '\n', mark);
    ReplaceCharAppend(m, t, '\r', "\n\r");
    ReplaceCharCons(t, '\r', "\n\r");
    assert t[1..] == c;
  }

  /** Replaying one more segment is one more line update. */
  lemma {:induction false} ReplayAppend(lines: seq<string>, segments: seq<string>, segment: string)
    ensures Replay(lines, segments + [segment])
            == TerminalLines.Update(Replay(lines, segments), ReplaceChar(segment, Zwsp, "\n"))
    decreases |segments|
  {
    if segments == [] {
      assert segments + [segment] == [segment];
    } else {
      var all := segments + [segment];
      assert all[0] == segments[0] && all[1..] == segments[1..] + [segment];
      ReplayAppend(TerminalLines.Update(lines, ReplaceChar(segments[0], Zwsp, "\n")), segments[1..], segment);
    }
  }

  /** A replay of at least one segment holds between one and `MaxLines`
      lines. */
  lemma {:induction false} ReplayBounded(lines: seq<string>, segments: seq<string>)
    requires segments != []
    ensures 1 <= |Replay(lines, segments)| <= TerminalLines.MaxLines
    decreases |segments|
  {
    var next := TerminalLines.Update(lines, ReplaceChar(segments[0], Zwsp, "\n"));
    if |segments| == 1 {
      assert Replay(lines, segments) == Replay(next, []);
      AppendedNonEmpty(lines, ReplaceChar(segments[0], Zwsp, "\n"));
    } else {
      ReplayBounded(next, segments[1..]);
    }
  }

  lemma AppendedNonEmpty(lines: seq<string>, output: string)
    ensures 1 <= |TerminalLines.Update(lines, output)| <= TerminalLines.MaxLines
  {
  }

  lemma MarkedExample()
    ensures Marked("a\rb") == "a\n\rb"
  {
    var s := "a\rb";
    assert '\n' !in s by {
      assert s == ['a', '\r', 'b'];
    }
    assert s == ['a'] + (['\r'] + ['b']);
    ReplaceCharAppend(['a'], ['\r'] + ['b'], '\r', "\n\r");
    ReplaceCharAppend(['\r'], ['b'], '\r', "\n\r");
    assert ['a'] + ("\n\r" + ['b']) == ['a', '\n', '\r', 'b'];
  }

  lemma SplitExample()
    ensures Split("a\n\rb", "\n") == ["a", "\rb"]
  {
    SplitPrefix("a", "\rb", '\n');
    assert "a\n\rb" == "a" + ['\n'] + "\rb";
    SplitWithoutSep("\rb", '\n');
    assert "\n" == ['\n'];
  }

  class Component {
    var loading: bool
    var calculations: seq<Json>
    var error: Json
    var listening: bool
    var sent: seq<Outgoing>

    constructor()
      ensures !loading && calculations == [] && error == Null && !listening && sent == []
    {
      loading := false;
      calculations := [];
      error := Null;
      listening := false;
      sent := [];
    }

    /** The effect run when the popup opens: with an open socket and a
        config, `list_calculations` is sent and the reply listener added;
        otherwise the error is set and nothing is sent. */
    method Open(socketOpen: bool, configId: Json)
      modifies this
      ensures calculations == []
      ensures !socketOpen || !Truthy(configId) ==>
                error == Str("Нет соединения с сервером или не выбран конфиг.") && !loading
                && sent == old(sent) && listening == old(listening)
      ensures socketOpen && Truthy(configId) ==>
                error == Null && loading && listening
                && sent == old(sent) + [Outgoing("list_calculations", [configId])]
    {
      loading := true;
      error := Null;
      calculations := [];
      if !socketOpen || !Truthy(configId) {
        error := Str("Нет соединения с сервером или не выбран конфиг.");
        loading := false;
        return;
      }
      sent := sent + [Outgoing("list_calculations", [configId])];
      listening := true;
    }

    /** The effect's cleanup, run when the popup closes or unmounts, or
        before the effect runs again: the reply listener is removed. */
    method Close()
      modifies this
      ensures !listening
      ensures loading == old(loading) && calculations == old(calculations)
              && error == old(error) && sent == old(sent)
    {
      listening := false;
    }

    /** The reply listener for config `configId`: the first frame of any
        kind removes it. An ok reply for this config with an array of runs
        replaces the list; an error reply sets the error; a frame that does
        not parse sets the parse error; anything else is ignored. */
    method HandleMessage(configId: Json, e: Incoming)
      requires listening
      modifies this
      ensures !listening && sent == old(sent)
      ensures Payload(e).None? ==>
                error == Str("Ошибка при обработке ответа сервера") && !loading && calculations == old(calculations)
      ensures Payload(e).Some? && ListReplyFor(Payload(e).value, configId) ==>
                calculations == Get(Payload(e).value, "calculations").items && !loading && error == old(error)
      ensures Payload(e).Some? && !ListReplyFor(Payload(e).value, configId)
              && Get(Payload(e).value, "status") == Str("error") ==>
                error == ErrorText(Payload(e).value) && !loading && calculations == old(calculations)
      ensures Payload(e).Some? && !ListReplyFor(Payload(e).value, configId)
              && Get(Payload(e).value, "status") != Str("error") ==>
                error == old(error) && loading == old(loading) && calculations == old(calculations)
    {
      var p := Payload(e);
      if p.None? {
        error := Str("Ошибка при обработке ответа сервера");
        loading := false;
      } else if ListReplyFor(p.value, configId) {
        calculations := Get(p.value, "calculations").items;
        loading := false;
      } else if Get(p.value, "status") == Str("error") {
        error := ErrorText(p.value);
        loading := false;
      }
      listening := false;
    }
  }

  /** An ok reply whose `config_id` is `configId` as strings, with an array
      of runs. */
  predicate ListReplyFor(data: Json, configId: Json)
  {
    Get(data, "status") == Str("ok") && ToStr(Get(data, "config_id")) == ToStr(configId)
    && Get(data, "calculations").Arr?
  }

  /** `data.message || "Ошибка при получении отчётов"`. */
  function ErrorText(data: Json): Json
  {
    if Truthy(Get(data, "message")) then Get(data, "message") else Str("Ошибка при получении отчётов")
  }
}
