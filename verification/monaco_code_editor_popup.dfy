/** The code editor popup (frontend/src/components/MonacoCodeEditorPopup.js):
    how the edited text is derived from the `lines` it is given, and how it
    is handed back on save, as one string or as lines that keep their
    newline. */
module MonacoCodeEditorPopup {
  import opened Wrappers
  import opened Strings
  import opened Json

  /** The initial text: the string itself, an array joined with "", or "". */
  function InitialCode(lines: Json): (code: string)
    ensures lines.Str? ==> code == lines.s
    ensures !lines.Str? && !lines.Arr? ==> code == ""
  {
    if lines.Str? then lines.s
    else if lines.Arr? then JoinElements(lines.items, "")
    else ""
  }

  /** `code.split(/(?<=\n)/)`: the text cut just after each newline that is
      not its last character. The empty text gives one empty piece. */
  function SplitKeepingNewlines(s: string): (pieces: seq<string>)
    ensures |pieces| >= 1
    decreases |s|
  {
    if |s| <= 1 then [s]
    else if s[0] == '\n' then [[s[0]]] + SplitKeepingNewlines(s[1..])
    else
      var rest := SplitKeepingNewlines(s[1..]);
      [[s[0]] + rest[0]] + rest[1..]
  }

  /** A piece that ends with its only newline. */
  predicate EndsLine(p: string)
  {
    |p| > 0 && p[|p| - 1] == '\n' && '\n' !in p[..|p| - 1]
  }

  /** A piece with no newline before its last character. */
  predicate NoInnerNewline(p: string)
  {
    |p| > 0 ==> '\n' !in p[..|p| - 1]
  }

  /** The pieces put back together are the text. */
  lemma {:induction false} SplitKeepingNewlinesConcat(s: string)
    ensures Concat(SplitKeepingNewlines(s)) == s
    decreases |s|
  {
    var p := SplitKeepingNewlines(s);
    if |s| <= 1 {
      assert Concat(p) == s + [];
    } else if s[0] == '\n' {
      var rest := SplitKeepingNewlines(s[1..]);
      SplitKeepingNewlinesConcat(s[1..]);
      ConcatCons([s[0]], rest);
      assert s == [s[0]] + s[1..];
    } else {
      var rest := SplitKeepingNewlines(s[1..]);
      SplitKeepingNewlinesConcat(s[1..]);
      assert rest == [rest[0]] + rest[1..];
      ConcatCons(rest[0], rest[1..]);
      ConcatCons([s[0]] + rest[0], rest[1..]);
      var tail := Concat(rest[1..]);
      assert ([s[0]] + rest[0]) + tail == [s[0]] + (rest[0] + tail);
      assert s == [s[0]] + s[1..];
    }
  }

  /** Each piece but the last ends with its only newline; the last has no
      newline before its end and is empty only when `nonEmpty` is false. */
  predicate LinesShape(p: seq<string>, nonEmpty: bool)
  {
    |p| >= 1
    && (forall i | 0 <= i < |p| - 1 :: EndsLine(p[i]))
    && NoInnerNewline(p[|p| - 1])
    && (nonEmpty ==> |p[|p| - 1]| > 0)
  }

  /** The pieces have that shape, the last being empty only for the empty text. */
  lemma {:induction false} SplitKeepingNewlinesLines(s: string)
    ensures LinesShape(SplitKeepingNewlines(s), s != [])
    decreases |s|
  {
    if |s| == 1 {
      assert s[..0] == [];
    } else if |s| > 1 {
      var rest := SplitKeepingNewlines(s[1..]);
      SplitKeepingNewlinesLines(s[1..]);
      if s[0] == '\n' {
        LinesShapeCons([s[0]], rest);
      } else {
        LinesShapeExtend(s[0], rest);
      }
    }
  }

  lemma LinesShapeCons(x: string, rest: seq<string>)
    requires EndsLine(x) && LinesShape(rest, true)
    ensures LinesShape([x] + rest, true)
  {
    var p := [x] + rest;
    forall i | 0 < i < |p| - 1
      ensures EndsLine(p[i])
    {
      assert p[i] == rest[i - 1];
    }
  }

  lemma LinesShapeExtend(c: char, rest: seq<string>)
    requires c != '\n' && LinesShape(rest, true)
    ensures LinesShape([[c] + rest[0]] + rest[1..], true)
  {
    var first := [c] + rest[0];
    var p := [first] + rest[1..];
    forall i | 0 < i < |p| - 1
      ensures EndsLine(p[i])
    {
      assert p[i] == rest[i];
    }
    assert first[..|first| - 1] == [c] + rest[0][..|rest[0]| - 1];
    if |p| > 1 {
      assert EndsLine(rest[0]);
    }
  }

  /** The strings of a list, as a JavaScript array. */
  function StrArray(pieces: seq<string>): (r: Json)
    ensures r.Arr? && |r.items| == |pieces|
  {
    Arr(seq(|pieces|, i requires 0 <= i < |pieces| => Str(pieces[i])))
  }

  /** Saving as lines and opening the saved lines again gives the same text. */
  lemma SaveReopenLines(code: string)
    ensures InitialCode(StrArray(SplitKeepingNewlines(code))) == code
  {
    SplitKeepingNewlinesConcat(code);
    JoinStrings(SplitKeepingNewlines(code));
  }

  lemma {:induction false} JoinStrings(pieces: seq<string>)
    requires |pieces| >= 1
    ensures JoinElements(StrArray(pieces).items, "") == Concat(pieces)
  {
    var items := StrArray(pieces).items;
    if |pieces| == 1 {
      assert items[0] == Str(pieces[0]);
      assert Concat(pieces) == pieces[0] + [];
    } else {
      JoinStrings(pieces[1..]);
      assert items[1..] == StrArray(pieces[1..]).items;
      assert items[0] == Str(pieces[0]);
      assert pieces[0] + "" + Concat(pieces[1..]) == pieces[0] + Concat(pieces[1..]);
    }
  }

  class Component {
    const saveAsString: bool
    var code: string

    /** The popup opened on `lines`: text mode exactly when `lines` is a string. */
    constructor(lines: Json)
      ensures saveAsString == lines.Str? && code == InitialCode(lines)
    {
      saveAsString := lines.Str?;
      code := InitialCode(lines);
    }

    /** The editor reports a change; `undefined` becomes "". */
    method OnEditorChange(value: Option<string>)
      modifies this
      ensures code == if value.Some? then value.value else ""
    {
      code := if value.Some? then value.value else "";
    }

    /** `handleSave`: what `onSave` is called with, if it is given. */
    method HandleSave(hasOnSave: bool) returns (saved: Option<Json>)
      ensures !hasOnSave ==> saved.None?
      ensures hasOnSave && saveAsString ==> saved == Some(Str(code))
      ensures hasOnSave && !saveAsString ==> saved == Some(StrArray(SplitKeepingNewlines(code)))
    {
      if !hasOnSave {
        return None;
      }
      if saveAsString {
        saved := Some(Str(code));
      } else {
        var newLines := SplitKeepingNewlines(code);
        saved := Some(StrArray(newLines));
      }
    }
  }
}
