/** String helpers shared by the modules below: the JavaScript and Python
    `split`/`join` family, character replacement, trimming and decimal
    rendering of integers. Strings are sequences of characters; JavaScript
    indexes UTF-16 code units, which the model does not distinguish. */
module Strings {
  import opened Wrappers


  predicate StartsWith(s: string, prefix: string) {
    |prefix| <= |s| && s[..|prefix|] == prefix
  }

  predicate EndsWith(s: string, suffix: string) {
    |suffix| <= |s| && s[|s| - |suffix|..] == suffix
  }

  /** A suffix of a suffix is a suffix. */
  lemma EndsWithDrop(s: string, k: nat, r: string)
    requires k <= |s| && EndsWith(s[k..], r)
    ensures EndsWith(s, r)
  {
    assert s[|s| - |r|..] == s[k..][|s| - k - |r|..];
  }

  /** Number of occurrences of `c` in `s`. */
  function Count(s: string, c: char): (n: nat)
    ensures n <= |s|
    ensures n == 0 <==> c !in s
  {
    if s == [] then 0 else (if s[0] == c then 1 else 0) + Count(s[1..], c)
  }

  lemma CountAppend(a: string, b: string, c: char)
    ensures Count(a + b, c) == Count(a, c) + Count(b, c)
  {
    if a != [] {
      assert (a + b)[1..] == a[1..] + b;
      CountAppend(a[1..], b, c);
    } else {
      assert a + b == b;
    }
  }

  /** `s.split(sep)` for a non-empty separator, as JavaScript and Python
      both define it: occurrences are taken from the left without overlap,
      and the pieces between them are returned, empty ones included. */
  function Split(s: string, sep: string): (parts: seq<string>)
    requires |sep| > 0
    ensures |parts| >= 1
    decreases |s|
  {
    if |s| < |sep| then [s]
    else if s[..|sep|] == sep then [[]] + Split(s[|sep|..], sep)
    else
      var rest := Split(s[1..], sep);
      [[s[0]] + rest[0]] + rest[1..]
  }

  /** `sep.join(parts)` (Python) and `parts.join(sep)` (JavaScript) for a
      list of strings. */
  function Join(parts: seq<string>, sep: string): string
  {
    if |parts| == 0 then []
    else if |parts| == 1 then parts[0]
    else parts[0] + sep + Join(parts[1..], sep)
  }

  /** `parts.join("")`. */
  function Concat(parts: seq<string>): string
  {
    if parts == [] then [] else parts[0] + Concat(parts[1..])
  }

  lemma ConcatCons(x: string, rest: seq<string>)
    ensures Concat([x] + rest) == x + Concat(rest)
  {
    assert ([x] + rest)[1..] == rest;
  }

  lemma ConcatAppend(a: seq<string>, b: seq<string>)
    ensures Concat(a + b) == Concat(a) + Concat(b)
  {
    if a != [] {
      assert (a + b)[1..] == a[1..] + b;
      ConcatAppend(a[1..], b);
    } else {
      assert a + b == b;
    }
  }

  lemma JoinPrepend(x: string, y: string, rest: seq<string>, sep: string)
    ensures Join([x + y] + rest, sep) == x + Join([y] + rest, sep)
  {
    if |rest| > 0 {
      assert ([x + y] + rest)[1..] == rest;
      assert ([y] + rest)[1..] == rest;
    }
  }

  lemma JoinAppend(parts: seq<string>, last: string, sep: string)
    requires |parts| > 0
    ensures Join(parts + [last], sep) == Join(parts, sep) + sep + last
  {
    if |parts| > 1 {
      assert (parts + [last])[1..] == parts[1..] + [last];
      JoinAppend(parts[1..], last, sep);
    }
  }

  /** Joining the pieces of a split gives back the original string. */
  lemma {:induction false} JoinSplit(s: string, sep: string)
    requires |sep| > 0
    ensures Join(Split(s, sep), sep) == s
  {
    if |s| < |sep| {
    } else if s[..|sep|] == sep {
      var rest := Split(s[|sep|..], sep);
      JoinSplit(s[|sep|..], sep);
      assert ([[]] + rest)[1..] == rest;
      assert s == sep + s[|sep|..];
    } else {
      var rest := Split(s[1..], sep);
      JoinSplit(s[1..], sep);
      JoinPrepend([s[0]], rest[0], rest[1..], sep);
      assert [rest[0]] + rest[1..] == rest;
      assert s == [s[0]] + s[1..];
    }
  }

  /** Splitting on one character yields one piece more than the character
      occurs, and no piece contains it. */
  lemma {:induction false} SplitOnChar(s: string, c: char)
    ensures |Split(s, [c])| == Count(s, c) + 1
    ensures forall i | 0 <= i < |Split(s, [c])| :: c !in Split(s, [c])[i]
  {
    if |s| >= 1 {
      SplitOnChar(s[1..], c);
      assert s[..1] == [s[0]];
    }
  }

  /** A string without the separator character splits into itself. */
  lemma SplitWithoutSep(s: string, c: char)
    requires c !in s
    ensures Split(s, [c]) == [s]
  {
    SplitOnChar(s, c);
    JoinSplit(s, [c]);
  }

  /** Splitting the join of pieces that do not contain the separator
      character gives the pieces back. */
  lemma {:induction false} SplitJoin(parts: seq<string>, c: char)
    requires |parts| > 0
    requires forall i | 0 <= i < |parts| :: c !in parts[i]
    ensures Split(Join(parts, [c]), [c]) == parts
  {
    if |parts| == 1 {
      SplitWithoutSep(parts[0], c);
    } else {
      SplitJoin(parts[1..], c);
      SplitPrefix(parts[0], Join(parts[1..], [c]), c);
      assert [parts[0]] + parts[1..] == parts;
    }
  }

  /** Splitting `a + [c] + b` where `a` lacks `c` puts `a` first. */
  lemma {:induction false} SplitPrefix(a: string, b: string, c: char)
    requires c !in a
    ensures Split(a + [c] + b, [c]) == [a] + Split(b, [c])
    decreases |a|
  {
    var s := a + [c] + b;
    if a == [] {
      assert s[..1] == [c];
      assert s[1..] == b;
    } else {
      assert s[..1] == [a[0]];
      assert s[1..] == a[1..] + [c] + b;
      SplitPrefix(a[1..], b, c);
      assert [a[0]] + a[1..] == a;
    }
  }

  /** Splitting `a + [c] + b` where `b` lacks `c` puts `b` last. */
  lemma {:induction false} SplitSuffix(a: string, b: string, c: char)
    requires c !in b
    ensures Split(a + [c] + b, [c]) == Split(a, [c]) + [b]
    decreases |a|
  {
    var s := a + [c] + b;
    if a == [] {
      assert s[..1] == [c] && s[1..] == b;
      SplitWithoutSep(b, c);
    } else {
      assert s[..1] == [a[0]];
      assert s[1..] == a[1..] + [c] + b;
      SplitSuffix(a[1..], b, c);
      assert a[..1] == [a[0]];
    }
  }

  /** `s.replaceAll(c, r)` with a one-character pattern. */
  function ReplaceChar(s: string, c: char, r: string): (t: string)
    ensures c !in s ==> t == s
  {
    if s == [] then [] else (if s[0] == c then r else [s[0]]) + ReplaceChar(s[1..], c, r)
  }

  /** Replacing a character by one character keeps the length and
      changes exactly the positions that held it. */
  lemma {:induction false} ReplaceCharByChar(s: string, c: char, d: char)
    ensures |ReplaceChar(s, c, [d])| == |s|
    ensures forall i | 0 <= i < |s| :: ReplaceChar(s, c, [d])[i] == (if s[i] == c then d else s[i])
  {
    if s != [] {
      ReplaceCharByChar(s[1..], c, d);
    }
  }

  lemma {:induction false} ReplaceCharAppend(a: string, b: string, c: char, r: string)
    ensures ReplaceChar(a + b, c, r) == ReplaceChar(a, c, r) + ReplaceChar(b, c, r)
  {
    if a == [] {
      assert a + b == b;
    } else {
      var ab := a + b;
      assert ab[0] == a[0] && ab[1..] == a[1..] + b;
      var h := if a[0] == c then r else [a[0]];
      ReplaceCharCons(ab, c, r);
      ReplaceCharCons(a, c, r);
      ReplaceCharAppend(a[1..], b, c, r);
      ConcatAssoc(h, ReplaceChar(a[1..], c, r), ReplaceChar(b, c, r));
    }
  }

  lemma ReplaceCharCons(s: string, c: char, r: string)
    requires s != []
    ensures ReplaceChar(s, c, r) == (if s[0] == c then r else [s[0]]) + ReplaceChar(s[1..], c, r)
  {
  }

  lemma ConcatAssoc<T>(x: seq<T>, y: seq<T>, z: seq<T>)
    ensures x + (y + z) == (x + y) + z
  {
  }

  /** Replacing `c` cannot bring in a character found neither in `s` nor
      in the replacement. */
  lemma {:induction false} ReplaceCharKeepsOut(s: string, c: char, r: string, d: char)
    requires d !in s && d !in r
    ensures d !in ReplaceChar(s, c, r)
  {
    if s != [] {
      ReplaceCharKeepsOut(s[1..], c, r, d);
      assert d != s[0];
    }
  }

  /** The characters JavaScript's `trim` removes: white space and line
      terminators. */
  predicate IsJsWhitespace(c: char)
  {
    c == '\t' || c == '\n' || c == '\U{B}' || c == '\U{C}' || c == '\r' || c == ' '
    || c == '\U{A0}' || c == '\U{1680}' || ('\U{2000}' <= c <= '\U{200A}')
    || c == '\U{2028}' || c == '\U{2029}' || c == '\U{202F}' || c == '\U{205F}' || c == '\U{3000}' || c == '\U{FEFF}'
  }

  /** `s.trimStart()`. */
  function TrimStart(s: string): (r: string)
    ensures |r| <= |s| && r == s[|s| - |r|..]
    ensures r == [] || !IsJsWhitespace(r[0])
    ensures forall i | 0 <= i < |s| - |r| :: IsJsWhitespace(s[i])
  {
    if s != [] && IsJsWhitespace(s[0]) then TrimStart(s[1..]) else s
  }

  /** `s.trimEnd()`. */
  function TrimEnd(s: string): (r: string)
    ensures |r| <= |s| && r == s[..|r|]
    ensures r == [] || !IsJsWhitespace(r[|r| - 1])
    ensures forall i | |r| <= i < |s| :: IsJsWhitespace(s[i])
  {
    if s != [] && IsJsWhitespace(s[|s| - 1]) then TrimEnd(s[..|s| - 1]) else s
  }

  /** `s.trim()`: empty exactly when `s` is all white space. */
  function Trim(s: string): (r: string)
    ensures r == [] <==> forall i | 0 <= i < |s| :: IsJsWhitespace(s[i])
    ensures r != [] ==> !IsJsWhitespace(r[0]) && !IsJsWhitespace(r[|r| - 1])
  {
    var t := TrimStart(s);
    var r := TrimEnd(t);
    // an empty result means `t` was empty: its first character, if any,
    // is not white space, yet `TrimEnd` removed it
    assert r == [] ==> t == [];
    r
  }

  /** Decimal digits of a natural number, as `String(n)` and `str(n)` give. */
  function NatToDecimal(n: nat): (r: string)
    ensures |r| > 0
    ensures forall i | 0 <= i < |r| :: '0' <= r[i] <= '9'
  {
    if n < 10 then [Digit(n)] else NatToDecimal(n / 10) + [Digit(n % 10)]
  }

  function Digit(d: nat): char
    requires d < 10
  {
    ['0', '1', '2', '3', '4', '5', '6', '7', '8', '9'][d]
  }

  /** Decimal rendering of an integer, with a leading minus when negative. */
  function IntToDecimal(n: int): (r: string)
    ensures |r| > 0
    ensures n >= 0 ==> '-' !in r
    ensures n < 0 ==> r[0] == '-'
  {
    if n >= 0 then NatToDecimal(n) else "-" + NatToDecimal(-n)
  }

  /** `sep` occurs in `s` at index `i`. */
  predicate OccursAt(s: string, sep: string, i: int)
  {
    0 <= i && i + |sep| <= |s| && s[i..i + |sep|] == sep
  }

  /** A string in which the separator never occurs splits into itself. */
  lemma {:induction false} SplitNoOccurrence(s: string, sep: string)
    requires |sep| > 0
    requires forall i :: !OccursAt(s, sep, i)
    ensures Split(s, sep) == [s]
    decreases |s|
  {
    if |s| >= |sep| {
      assert !OccursAt(s, sep, 0);
      forall i ensures !OccursAt(s[1..], sep, i)
      {
        if OccursAt(s[1..], sep, i) {
          assert s[1..][i..i + |sep|] == s[i + 1..i + 1 + |sep|];
          assert OccursAt(s, sep, i + 1);
        }
      }
      SplitNoOccurrence(s[1..], sep);
      assert [s[0]] + s[1..] == s;
    }
  }

  /** Splitting `sep + s` gives an empty piece, then the pieces of `s`. */
  lemma SplitLeadingSep(s: string, sep: string)
    requires |sep| > 0
    ensures Split(sep + s, sep) == [[]] + Split(s, sep)
  {
    assert (sep + s)[..|sep|] == sep;
    assert (sep + s)[|sep|..] == s;
  }

  /** The index of the last `c` in `s`, or -1. */
  function LastIndexOf(s: string, c: char): (r: int)
    ensures -1 <= r < |s|
    ensures r >= 0 ==> s[r] == c
    ensures forall j | r < j < |s| :: s[j] != c
  {
    if s == [] then -1
    else if s[|s| - 1] == c then |s| - 1
    else LastIndexOf(s[..|s| - 1], c)
  }

  /** Python's `s.rsplit(c, 1)` when it yields two pieces: the text before
      the last `c` and the text after it. */
  function RSplitOnce(s: string, c: char): (r: Option<(string, string)>)
    ensures r.None? <==> c !in s
    ensures r.Some? ==> r.value.0 + [c] + r.value.1 == s && c !in r.value.1
  {
    var i := LastIndexOf(s, c);
    if i < 0 then None
    else
      assert s[..i] + [c] + s[i + 1..] == s;
      Some((s[..i], s[i + 1..]))
  }
}
