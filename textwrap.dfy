/** `indent` and `dedent` of xoutil/textwrap.py, on text as a sequence of
    characters.  The standard library's `dedent`, which `dedent` calls on
    its parts, is a parameter. */
module TextWrap {

  /** The characters `str.splitlines` breaks lines at. */
  predicate IsLineBreak(c: char)
  {
    c == '\n' || c == '\r' || c == '\U{0B}' || c == '\U{0C}' || c == '\U{1C}' || c == '\U{1D}' || c == '\U{1E}'
    || c == '\U{85}' || c == '\U{2028}' || c == '\U{2029}'
  }

  /** The characters `str.strip` removes (`str.isspace`). */
  predicate IsSpace(c: char)
  {
    c == ' ' || c == '\t' || c == '\n' || c == '\r' || c == '\U{0B}' || c == '\U{0C}'
    || ('\U{1C}' <= c <= '\U{1F}') || c == '\U{85}' || c == '\U{A0}' || c == '\U{1680}' || c == '\U{180E}'
    || ('\U{2000}' <= c <= '\U{200A}') || c == '\U{2028}' || c == '\U{2029}' || c == '\U{202F}'
    || c == '\U{205F}' || c == '\U{3000}'
  }

  predicate NoBreaks(s: string)
  {
    forall k | 0 <= k < |s| :: !IsLineBreak(s[k])
  }

  /** One line as `splitlines(True)` returns it: not empty, and a line
      break, or the pair "\r\n", can only be its end. */
  predicate IsLine(l: string)
  {
    |l| > 0
    && forall k | 0 <= k < |l| - 1 :: IsLineBreak(l[k]) ==> k == |l| - 2 && l[k] == '\r' && l[k + 1] == '\n'
  }

  /** The line ends with its line break. */
  predicate Ended(l: string)
  {
    |l| > 0 && IsLineBreak(l[|l| - 1])
  }

  /** The length of the first line of `t`, line break included. */
  function LineEnd(t: string): (n: nat)
    requires t != []
    ensures 0 < n <= |t|
  {
    if !IsLineBreak(t[0]) then
      if |t| == 1 then 1 else 1 + LineEnd(t[1..])
    else if t[0] == '\r' && |t| > 1 && t[1] == '\n' then 2
    else 1
  }

  /** `text.splitlines(True)`. */
  function SplitLines(t: string): seq<string>
    decreases |t|
  {
    if t == [] then [] else [t[..LineEnd(t)]] + SplitLines(t[LineEnd(t)..])
  }

  /** `''.join(lines)`. */
  function Concat(ls: seq<string>): string
  {
    if ls == [] then [] else ls[0] + Concat(ls[1..])
  }

  /** What `splitlines(True)` can give: lines, all but the last ended, and
      no lone "\r" ending a line whose successor starts with "\n". */
  predicate WellSplit(ls: seq<string>)
  {
    (forall i | 0 <= i < |ls| :: IsLine(ls[i]))
    && (forall i | 0 <= i < |ls| - 1 :: Ended(ls[i]))
    && (forall i | 0 <= i < |ls| - 1 :: ls[i][|ls[i]| - 1] == '\r' ==> ls[i + 1][0] != '\n')
  }

  /** The default predicate of `indent`: `line.strip()` is not empty. */
  predicate HasContent(line: string)
  {
    exists k | 0 <= k < |line| :: !IsSpace(line[k])
  }

  /** The lines `indent` yields. */
  function Prefixed(ls: seq<string>, prefix: string, selected: string -> bool): (r: seq<string>)
    ensures |r| == |ls|
  {
    if ls == [] then [] else [if selected(ls[0]) then prefix + ls[0] else ls[0]] + Prefixed(ls[1..], prefix, selected)
  }

  /** `indent(text, prefix, predicate)`. */
  function Indent(text: string, prefix: string, selected: string -> bool): string
  {
    Concat(Prefixed(SplitLines(text), prefix, selected))
  }

  /** `indent(text, prefix)`, with the default predicate. */
  function IndentDefault(text: string, prefix: string): string
  {
    Indent(text, prefix, HasContent)
  }

  /** Which lines of `text` the predicate selects. */
  function Marks(ls: seq<string>, selected: string -> bool): (m: seq<bool>)
    ensures |m| == |ls| && forall i | 0 <= i < |ls| :: m[i] == selected(ls[i])
  {
    if ls == [] then [] else [selected(ls[0])] + Marks(ls[1..], selected)
  }

  /** The marked lines with their first `|prefix|` characters taken off
      where they start with `prefix`. */
  function StripMarked(ls: seq<string>, prefix: string, marks: seq<bool>): (r: seq<string>)
    requires |marks| == |ls|
    ensures |r| == |ls|
  {
    if ls == [] then []
    else
      var l := ls[0];
      [if marks[0] && |prefix| <= |l| && l[..|prefix|] == prefix then l[|prefix|..] else l]
      + StripMarked(ls[1..], prefix, marks[1..])
  }

  /** Takes `prefix` off the marked lines of `text`: the inverse of `Indent`. */
  function Unindent(text: string, prefix: string, marks: seq<bool>): string
    requires |marks| == |SplitLines(text)|
  {
    Concat(StripMarked(SplitLines(text), prefix, marks))
  }

  // ---------------------------------------------------------------------
  // Line splitting
  // ---------------------------------------------------------------------

  /** The first line is a line; unless it is the whole text it is ended,
      and it does not split a "\r\n" pair. */
  lemma {:induction false} LineEndIsLine(t: string)
    requires t != []
    ensures IsLine(t[..LineEnd(t)])
    ensures LineEnd(t) < |t| ==> IsLineBreak(t[LineEnd(t) - 1])
    ensures LineEnd(t) < |t| && t[LineEnd(t) - 1] == '\r' ==> t[LineEnd(t)] != '\n'
    decreases |t|
  {
    if !IsLineBreak(t[0]) && |t| > 1 {
      LineEndIsLine(t[1..]);
      var n := LineEnd(t);
      assert t[..n] == [t[0]] + t[1..][..n - 1];
    }
  }

  /** Joining the lines gives back the text. */
  lemma {:induction false} ConcatSplitLines(t: string)
    ensures Concat(SplitLines(t)) == t
    decreases |t|
  {
    if t != [] {
      var n := LineEnd(t);
      ConcatSplitLines(t[n..]);
      assert t == t[..n] + t[n..];
    }
  }

  /** `splitlines(True)` always gives well-split lines. */
  lemma {:induction false} SplitLinesWellSplit(t: string)
    ensures WellSplit(SplitLines(t))
    decreases |t|
  {
    if t != [] {
      var n := LineEnd(t);
      var rest := SplitLines(t[n..]);
      LineEndIsLine(t);
      SplitLinesWellSplit(t[n..]);
      if rest != [] {
        assert t[n..] != [];
        assert rest[0] == t[n..][..LineEnd(t[n..])];
        assert rest[0][0] == t[n];
      }
      var ls := SplitLines(t);
      assert ls == [t[..n]] + rest;
      forall i | 0 <= i < |ls|
        ensures IsLine(ls[i])
      {
        if i > 0 { assert ls[i] == rest[i - 1]; }
      }
    }
  }

  /** A line followed by text it does not run into ends where the line ends. */
  lemma {:induction false} LineEndOfLine(l: string, rest: string)
    requires IsLine(l)
    requires rest != [] ==> Ended(l) && (l[|l| - 1] == '\r' ==> rest[0] != '\n')
    ensures LineEnd(l + rest) == |l|
    decreases |l|
  {
    var t := l + rest;
    if !IsLineBreak(l[0]) {
      if |l| > 1 {
        var l' := l[1..];
        assert IsLine(l') by {
          forall k | 0 <= k < |l'| - 1 && IsLineBreak(l'[k])
            ensures k == |l'| - 2 && l'[k] == '\r' && l'[k + 1] == '\n'
          {
            assert l'[k] == l[k + 1];
          }
        }
        assert t[1..] == l' + rest;
        LineEndOfLine(l', rest);
      }
    } else if |l| > 1 {
      assert l == ['\r', '\n'];
    }
  }

  /** Splitting joined well-split lines gives them back. */
  lemma {:induction false} SplitConcat(ls: seq<string>)
    requires WellSplit(ls)
    ensures SplitLines(Concat(ls)) == ls
  {
    if ls != [] {
      var rest := Concat(ls[1..]);
      assert WellSplit(ls[1..]) by {
        forall i | 0 <= i < |ls[1..]| - 1
          ensures ls[1..][i][|ls[1..][i]| - 1] == '\r' ==> ls[1..][i + 1][0] != '\n'
        {
          assert ls[1..][i] == ls[i + 1] && ls[1..][i + 1] == ls[i + 2];
        }
      }
      SplitConcat(ls[1..]);
      if rest != [] {
        assert ls[1..] != [];
        FirstOfConcat(ls[1..]);
      }
      LineEndOfLine(ls[0], rest);
      var t := Concat(ls);
      assert t[..|ls[0]|] == ls[0] && t[|ls[0]|..] == rest;
    }
  }

  /** The joined text starts with the first character of the first line. */
  lemma FirstOfConcat(ls: seq<string>)
    requires ls != [] && |ls[0]| > 0
    ensures |Concat(ls)| > 0 && Concat(ls)[0] == ls[0][0]
  {
  }

  // ---------------------------------------------------------------------
  // indent
  // ---------------------------------------------------------------------

  /** With a prefix free of line breaks, the lines of the indented text are
      the lines of the text, each either prefixed or unchanged: the line
      count is kept, and so is each line's ending. */
  lemma IndentLines(text: string, prefix: string, selected: string -> bool)
    requires NoBreaks(prefix)
    ensures var ls := SplitLines(text);
            var out := SplitLines(Indent(text, prefix, selected));
            |out| == |ls|
            && (forall i | 0 <= i < |ls| :: out[i] == if selected(ls[i]) then prefix + ls[i] else ls[i])
  {
    var ls := SplitLines(text);
    SplitLinesWellSplit(text);
    PrefixedWellSplit(ls, prefix, selected);
    SplitConcat(Prefixed(ls, prefix, selected));
    PrefixedLines(ls, prefix, selected);
  }

  lemma {:induction false} PrefixedLines(ls: seq<string>, prefix: string, selected: string -> bool)
    ensures forall i | 0 <= i < |ls| ::
              Prefixed(ls, prefix, selected)[i] == if selected(ls[i]) then prefix + ls[i] else ls[i]
  {
    if ls != [] {
      PrefixedLines(ls[1..], prefix, selected);
      forall i | 1 <= i < |ls|
        ensures Prefixed(ls, prefix, selected)[i] == Prefixed(ls[1..], prefix, selected)[i - 1]
      {
      }
    }
  }

  /** Prefixing some lines of well-split lines with a prefix free of line
      breaks keeps them well split. */
  lemma PrefixedWellSplit(ls: seq<string>, prefix: string, selected: string -> bool)
    requires WellSplit(ls) && NoBreaks(prefix)
    ensures WellSplit(Prefixed(ls, prefix, selected))
  {
    var out := Prefixed(ls, prefix, selected);
    PrefixedLines(ls, prefix, selected);
    forall i | 0 <= i < |ls|
      ensures IsLine(out[i]) && out[i][|out[i]| - 1] == ls[i][|ls[i]| - 1]
      ensures out[i][0] == if selected(ls[i]) && prefix != [] then prefix[0] else ls[i][0]
    {
      if selected(ls[i]) {
        PrefixLine(prefix, ls[i]);
      }
    }
  }

  /** A break-free prefix in front of a line gives a line with the same end. */
  lemma PrefixLine(prefix: string, l: string)
    requires NoBreaks(prefix) && IsLine(l)
    ensures IsLine(prefix + l) && (prefix + l)[|prefix + l| - 1] == l[|l| - 1]
  {
    var pl := prefix + l;
    forall k | 0 <= k < |pl| - 1 && IsLineBreak(pl[k])
      ensures k == |pl| - 2 && pl[k] == '\r' && pl[k + 1] == '\n'
    {
      assert k >= |prefix|;
      assert pl[k] == l[k - |prefix|] && pl[k + 1] == l[k - |prefix| + 1];
    }
  }

  /** Taking the prefix back off the selected lines gives the text back. */
  lemma IndentRoundTrip(text: string, prefix: string, selected: string -> bool)
    requires NoBreaks(prefix)
    ensures |SplitLines(Indent(text, prefix, selected))| == |SplitLines(text)|
    ensures Unindent(Indent(text, prefix, selected), prefix, Marks(SplitLines(text), selected)) == text
  {
    var ls := SplitLines(text);
    IndentLines(text, prefix, selected);
    var out := SplitLines(Indent(text, prefix, selected));
    var marks := Marks(ls, selected);
    StripPrefixed(ls, prefix, selected, out, marks);
    ConcatSplitLines(text);
  }

  lemma {:induction false} StripPrefixed(ls: seq<string>, prefix: string, selected: string -> bool,
                                         out: seq<string>, marks: seq<bool>)
    requires |out| == |ls| == |marks|
    requires forall i | 0 <= i < |ls| :: marks[i] == selected(ls[i])
    requires forall i | 0 <= i < |ls| :: out[i] == if selected(ls[i]) then prefix + ls[i] else ls[i]
    ensures StripMarked(out, prefix, marks) == ls
  {
    if ls != [] {
      StripPrefixed(ls[1..], prefix, selected, out[1..], marks[1..]);
      if marks[0] {
        assert (prefix + ls[0])[..|prefix|] == prefix && (prefix + ls[0])[|prefix|..] == ls[0];
      }
    }
  }

  /** With the default predicate, lines of whitespace only stay as they are
      and every other line gets the prefix. */
  lemma DefaultIndent(text: string, prefix: string)
    requires NoBreaks(prefix)
    ensures var ls := SplitLines(text);
            var out := SplitLines(IndentDefault(text, prefix));
            |out| == |ls|
            && (forall i | 0 <= i < |ls| :: (forall k | 0 <= k < |ls[i]| :: IsSpace(ls[i][k])) ==> out[i] == ls[i])
            && (forall i | 0 <= i < |ls| :: (exists k | 0 <= k < |ls[i]| :: !IsSpace(ls[i][k])) ==> out[i] == prefix + ls[i])
  {
    IndentLines(text, prefix, HasContent);
  }

  /** Every line of indented text ends as the original line does. */
  lemma {:induction false} IndentKeepsEndings(text: string, prefix: string, selected: string -> bool)
    requires NoBreaks(prefix)
    ensures var ls := SplitLines(text);
            var out := SplitLines(Indent(text, prefix, selected));
            |out| == |ls|
            && forall i | 0 <= i < |ls| :: |ls[i]| <= |out[i]| && out[i][|out[i]| - |ls[i]|..] == ls[i]
  {
    IndentLines(text, prefix, selected);
    var ls := SplitLines(text);
    forall i | 0 <= i < |ls| && selected(ls[i])
      ensures (prefix + ls[i])[|prefix|..] == ls[i]
    {
    }
  }

  // ---------------------------------------------------------------------
  // dedent
  // ---------------------------------------------------------------------

  /** `text.split('\n', 1)`, padded to two parts with an empty body. */
  function SplitFirst(text: string): (parts: (string, string))
    ensures '\n' !in parts.0
    ensures '\n' in text ==> text == parts.0 + "\n" + parts.1
    ensures '\n' !in text ==> parts == (text, "")
  {
    if text == [] then ("", "")
    else if text[0] == '\n' then ("", text[1..])
    else
      var p := SplitFirst(text[1..]);
      assert '\n' in text[1..] ==> text[1..] == p.0 + "\n" + p.1;
      assert text == [text[0]] + text[1..];
      ([text[0]] + p.0, p.1)
  }

  /** `dedent(text, skip_firstline)`, with the library `dedent` as `dd`. */
  function Dedent(text: string, skipFirstline: bool, dd: string -> string): string
  {
    if skipFirstline then
      var (subject, body) := SplitFirst(text);
      dd(subject) + (if body != "" then "\n" + dd(body) else "")
    else dd(text)
  }

  /** Cutting a text at its first newline gives back the part before it
      and the part after it. */
  lemma {:induction false} SplitFirstAt(subject: string, body: string)
    requires '\n' !in subject
    ensures SplitFirst(subject + "\n" + body) == (subject, body)
  {
    var t := subject + "\n" + body;
    if subject != [] {
      assert t[1..] == subject[1..] + "\n" + body;
      SplitFirstAt(subject[1..], body);
      assert subject == [subject[0]] + subject[1..];
    }
  }

  /** Without `skip_firstline` it is the library `dedent`; with it, the first
      line and the rest are dedented apart and joined by one newline, and
      a text with nothing after its first newline loses that newline. */
  lemma DedentCases(subject: string, body: string, dd: string -> string)
    requires '\n' !in subject
    ensures Dedent(subject + "\n" + body, false, dd) == dd(subject + "\n" + body)
    ensures body != "" ==> Dedent(subject + "\n" + body, true, dd) == dd(subject) + "\n" + dd(body)
    ensures Dedent(subject + "\n", true, dd) == dd(subject)
    ensures Dedent(subject, true, dd) == dd(subject)
  {
    SplitFirstAt(subject, body);
    assert subject + "\n" == subject + "\n" + "";
    SplitFirstAt(subject, "");
  }

  /** The library `dedent` replaced by one that changes nothing. */
  function Unchanged(s: string): string
  {
    s
  }

  /** Without `skip_firstline`, a library `dedent` that changes nothing
      leaves the text as it is. */
  lemma DedentIdentityPlain(text: string)
    ensures Dedent(text, false, Unchanged) == text
  {
  }

  /** With a library `dedent` that changes nothing, skipping the first line
      changes nothing either, except that a text whose first newline ends
      it loses that newline. */
  lemma DedentIdentity(subject: string, body: string)
    requires '\n' !in subject
    ensures Dedent(subject + "\n" + body, true, Unchanged) == if body == "" then subject else subject + "\n" + body
    ensures Dedent(subject, true, Unchanged) == subject
  {
    DedentCases(subject, body, Unchanged);
    assert subject + "\n" + "" == subject + "\n";
  }
}
