/**
  `createHighlightedCodeFrame(code, { start, end })`
  (`codemod/plugin-deprecate/helpers.ts`, repeated verbatim in
  `codemod/prop-deprecation/babel-plugin.ts`): the excerpt of the source that
  warnings print.  It shows the line before, the line of `start` and the line
  after, each labelled `N | `, and a line of `^` under the columns
  `start.column` up to `end.column`.

  Line labels are the zero-based index of the line in `code.split('\n')`;
  Babel's `loc.line` is one-based, so the start line is labelled
  `start.line - 1`.  The frame is modelled as its four lines (`Frame`), and what the function
  returns as the lines `dedent` leaves of the template literal (`Printed`).
 */
module CodeFrame {
  import opened Options

  // ---------------------------------------------------------------------------
  // String.prototype.split('\n') and its inverse

  /** `s.split('\n')`. */
  function Split(s: string): (r: seq<string>)
    ensures |r| >= 1
    ensures forall i | 0 <= i < |r| :: '\n' !in r[i]
    decreases |s|
  {
    if s == [] then [""]
    else
      var rest := Split(s[1..]);
      if s[0] == '\n' then [""] + rest
      else [[s[0]] + rest[0]] + rest[1..]
  }

  /** `lines.join('\n')`. */
  function Join(lines: seq<string>): (r: string)
    requires |lines| >= 1
    ensures |r| >= |lines[0]| && r[..|lines[0]|] == lines[0]
    ensures |lines| > 1 ==> |r| > |lines[0]| && r[|lines[0]|] == '\n'
    decreases |lines|
  {
    if |lines| == 1 then lines[0] else lines[0] + "\n" + Join(lines[1..])
  }

  /** Joining the pieces of a split gives back the text. */
  lemma {:induction false} JoinSplit(s: string)
    ensures Join(Split(s)) == s
    decreases |s|
  {
    if s != [] {
      var rest := Split(s[1..]);
      JoinSplit(s[1..]);
      if s[0] != '\n' && |rest| > 1 {
        var r := Split(s);
        assert r[1..] == rest[1..];
        assert Join(rest) == rest[0] + "\n" + Join(rest[1..]);
        assert Join(r) == ([s[0]] + rest[0]) + "\n" + Join(rest[1..]);
      }
    }
  }

  lemma {:induction false} SplitOfLine(l: string)
    requires '\n' !in l
    ensures Split(l) == [l]
    decreases |l|
  {
    if l != [] {
      assert l[0] in l;
      assert forall c | c in l[1..] :: c in l;
      SplitOfLine(l[1..]);
      assert [l[0]] + l[1..] == l;
    }
  }

  lemma {:induction false} SplitOfLineAndRest(l: string, rest: string)
    requires '\n' !in l
    ensures Split(l + "\n" + rest) == [l] + Split(rest)
    decreases |l|
  {
    if l == [] {
      assert l + "\n" + rest == "\n" + rest;
      assert ("\n" + rest)[1..] == rest;
    } else {
      assert l[0] in l;
      assert forall c | c in l[1..] :: c in l;
      SplitOfLineAndRest(l[1..], rest);
      assert (l + "\n" + rest)[1..] == l[1..] + "\n" + rest;
      assert [l[0]] + l[1..] == l;
    }
  }

  /** Splitting the join of newline-free lines gives back the lines. */
  lemma {:induction false} SplitJoin(lines: seq<string>)
    requires |lines| >= 1 && forall i | 0 <= i < |lines| :: '\n' !in lines[i]
    ensures Split(Join(lines)) == lines
    decreases |lines|
  {
    if |lines| == 1 {
      SplitOfLine(lines[0]);
    } else {
      SplitJoin(lines[1..]);
      SplitOfLineAndRest(lines[0], Join(lines[1..]));
      assert [lines[0]] + lines[1..] == lines;
    }
  }

  // ---------------------------------------------------------------------------
  // Number.prototype.toString() of an integer

  function DigitChar(d: nat): char
    requires d < 10
  {
    ('0' as int + d) as char
  }

  predicate IsDigit(c: char)
  {
    '0' <= c <= '9'
  }

  /** The decimal digits of `n`, most significant first. */
  function Digits(n: nat): (r: string)
    ensures |r| >= 1 && forall i | 0 <= i < |r| :: IsDigit(r[i])
    ensures |r| == 1 <==> n < 10
    decreases n
  {
    if n < 10 then [DigitChar(n)] else Digits(n / 10) + [DigitChar(n % 10)]
  }

  /** The number a string of digits denotes. */
  function DigitsValue(s: string): (r: int)
    requires forall i | 0 <= i < |s| :: IsDigit(s[i])
    ensures r >= 0
    decreases |s|
  {
    if s == [] then 0
    else
      assert IsDigit(s[|s| - 1]);
      DigitsValue(s[..|s| - 1]) * 10 + (s[|s| - 1] as int - '0' as int)
  }

  lemma {:induction false} DigitsValueOfDigits(n: nat)
    ensures DigitsValue(Digits(n)) == n
    decreases n
  {
    if n >= 10 {
      DigitsValueOfDigits(n / 10);
      var s := Digits(n);
      assert s[..|s| - 1] == Digits(n / 10);
    }
  }

  /** `n.toString()`: an optional minus sign, then the digits of `|n|`. */
  function DecimalString(n: int): (r: string)
    ensures |r| >= 1
    ensures r[0] == '-' <==> n < 0
  {
    if n < 0 then "-" + Digits(-n) else Digits(n)
  }

  /** Reads back what `DecimalString` wrote. */
  function ParseDecimal(s: string): (r: int)
    requires |s| >= 1
    requires forall i | (if s[0] == '-' then 1 else 0) <= i < |s| :: IsDigit(s[i])
    ensures s[0] == '-' ==> r <= 0
    ensures s[0] != '-' ==> r >= 0
  {
    if s[0] == '-' then -DigitsValue(s[1..]) else DigitsValue(s)
  }

  /** `DecimalString` loses nothing: parsing its output gives back the number. */
  lemma DecimalStringRoundTrip(n: int)
    ensures ParseDecimal(DecimalString(n)) == n
  {
    if n < 0 {
      var digits := Digits(-n);
      var s := "-" + digits;
      assert DecimalString(n) == s;
      assert s[0] == '-' && s[1..] == digits;
      assert forall i | 1 <= i < |s| :: s[i] == digits[i - 1];
      DigitsValueOfDigits(-n);
    } else {
      DigitsValueOfDigits(n);
    }
  }

  // ---------------------------------------------------------------------------
  // String.prototype.padStart with a one-character filler

  /** `n` copies of `c`. */
  function Repeat(c: char, n: nat): (r: string)
    ensures |r| == n && forall k | 0 <= k < n :: r[k] == c
  {
    if n == 0 then [] else Repeat(c, n - 1) + [c]
  }

  /** `s.padStart(width, fill)`: `fill` repeated in front of `s` until it is `width` long. */
  function PadStart(s: string, width: int, fill: char): (r: string)
    ensures |r| == if width > |s| then width else |s|
    ensures forall k | 0 <= k < |r| :: r[k] == if k < |r| - |s| then fill else s[k - (|r| - |s|)]
  {
    if width <= |s| then s else Repeat(fill, width - |s|) + s
  }

  // ---------------------------------------------------------------------------
  // dedent

  /** The number of blanks `s` starts with. */
  function Indent(s: string): (r: nat)
    ensures r <= |s| && (forall j | 0 <= j < r :: s[j] == ' ') && (r < |s| ==> s[r] != ' ')
    decreases |s|
  {
    if s != [] && s[0] == ' ' then 1 + Indent(s[1..]) else 0
  }

  /** A line `dedent` measures (`/^(\s+)\S+/`): blanks, then something else. */
  predicate Indented(s: string)
  {
    0 < Indent(s) < |s|
  }

  /** `mindent`: the least indentation among the measured lines, `None` when no line is measured. */
  function LeastIndent(lines: seq<string>): (r: Option<nat>)
    ensures r.Some? ==> exists i | 0 <= i < |lines| :: Indented(lines[i]) && Indent(lines[i]) == r.value
    ensures r.Some? ==> forall i | 0 <= i < |lines| && Indented(lines[i]) :: r.value <= Indent(lines[i])
    ensures r.None? ==> forall i | 0 <= i < |lines| :: !Indented(lines[i])
    decreases |lines|
  {
    if lines == [] then None
    else
      var rest := LeastIndent(lines[1..]);
      assert forall i | 1 <= i < |lines| :: lines[i] == lines[1..][i - 1];
      if Indented(lines[0]) && (rest.None? || Indent(lines[0]) < rest.value) then Some(Indent(lines[0]))
      else rest
  }

  /** `l.slice(k)`. */
  function Slice(s: string, k: nat): string
  {
    if k <= |s| then s[k..] else ""
  }

  /** `dedent` on the lines of a text: each line that starts with a blank loses `mindent` characters. */
  function Dedent(lines: seq<string>): seq<string>
  {
    DedentBy(lines, LeastIndent(lines))
  }

  /** Each line that starts with a blank loses `m` characters, when `m` is some number. */
  function DedentBy(lines: seq<string>, m: Option<nat>): seq<string>
  {
    seq(|lines|, i requires 0 <= i < |lines| =>
      if m.Some? && lines[i] != "" && lines[i][0] == ' ' then Slice(lines[i], m.value) else lines[i])
  }

  /** The template literal's lines once `trim` has run: every line but the first keeps the template's four blanks. */
  function Template(lines: seq<string>): seq<string>
  {
    seq(|lines|, i requires 0 <= i < |lines| => if i == 0 then lines[0] else "    " + lines[i])
  }

  /** The number of blanks `s` starts with is `n` when `n` blanks and then something else begin it. */
  lemma IndentIs(s: string, n: nat)
    requires n < |s| && (forall j | 0 <= j < n :: s[j] == ' ') && s[n] != ' '
    ensures Indent(s) == n
  {
  }

  lemma IndentOfTemplateLine(l: string)
    ensures Indent("    " + l) == 4 + Indent(l)
  {
    var s := "    " + l;
    if Indent(l) < |l| {
      IndentIs(s, 4 + Indent(l));
    } else {
      assert forall j | 0 <= j < |s| :: s[j] == ' ';
    }
  }

  /**
    When every line holds something besides blanks, and the first line and one
    other start with something else, `dedent` takes away exactly the four
    blanks the template put in front of the other lines.
   */
  lemma DedentUndoesTemplate(lines: seq<string>, k: nat)
    requires 0 < k < |lines|
    requires forall i | 0 <= i < |lines| :: Indent(lines[i]) < |lines[i]|
    requires Indent(lines[0]) == 0 && Indent(lines[k]) == 0
    ensures Dedent(Template(lines)) == lines
  {
    var t := Template(lines);
    forall i | 0 < i < |lines|
      ensures Indent(t[i]) == 4 + Indent(lines[i]) && Indented(t[i])
    {
      IndentOfTemplateLine(lines[i]);
    }
    assert !Indented(t[0]);
    assert Indented(t[k]) && Indent(t[k]) == 4;
    assert LeastIndent(t) == Some(4);
    forall i | 0 < i < |lines|
      ensures Slice(t[i], 4) == lines[i]
    {
      assert t[i] == "    " + lines[i];
    }
  }

  /** A template literal whose lines after the first are indented by `n` blanks. */
  function Margined(lines: seq<string>, n: nat): seq<string>
  {
    seq(|lines|, i requires 0 <= i < |lines| => if i == 0 then lines[0] else Repeat(' ', n) + lines[i])
  }

  lemma IndentOfMarginedLine(l: string, n: nat)
    requires Indent(l) < |l|
    ensures Indent(Repeat(' ', n) + l) == n + Indent(l)
  {
    IndentIs(Repeat(' ', n) + l, n + Indent(l));
  }

  /**
    How far the template indents its lines does not change what `dedent`
    returns, when the first line is not indented and every line holds something
    besides blanks: `mindent` grows by the template's indentation and takes it
    away again.
   */
  lemma MarginIsDedented(lines: seq<string>, n: nat)
    requires 0 < n && |lines| > 0
    requires forall i | 0 <= i < |lines| :: Indent(lines[i]) < |lines[i]|
    requires Indent(lines[0]) == 0
    ensures Dedent(Margined(lines, n)) == Dedent(Template(lines))
  {
    TemplateIsMargined(lines);
    if |lines| == 1 {
      assert Margined(lines, n) == lines == Margined(lines, 4);
    } else {
      var p := MarginedLeastIndent(lines, n);
      var q := MarginedLeastIndent(lines, 4);
      assert Indent(lines[p]) == Indent(lines[q]);
      DedentMargined(lines, n, n + Indent(lines[p]));
      DedentMargined(lines, 4, 4 + Indent(lines[q]));
    }
  }

  /** `mindent` of the template is its indentation plus the least indentation `Indent(lines[p])` of the lines after the first. */
  lemma MarginedLeastIndent(lines: seq<string>, n: nat) returns (p: nat)
    requires 0 < n && |lines| > 1
    requires forall i | 0 <= i < |lines| :: Indent(lines[i]) < |lines[i]|
    requires Indent(lines[0]) == 0
    ensures 0 < p < |lines| && LeastIndent(Margined(lines, n)) == Some(n + Indent(lines[p]))
    ensures forall i | 0 < i < |lines| :: Indent(lines[p]) <= Indent(lines[i])
  {
    MarginedIndents(lines, n);
    var a := Margined(lines, n);
    assert Indented(a[1]);
    var m := LeastIndent(a).value;
    p :| 0 <= p < |a| && Indented(a[p]) && Indent(a[p]) == m;
    forall i | 0 < i < |lines|
      ensures Indent(lines[p]) <= Indent(lines[i])
    {
      assert m <= Indent(a[i]);
    }
  }

  lemma TemplateIsMargined(lines: seq<string>)
    ensures Template(lines) == Margined(lines, 4)
  {
    assert Repeat(' ', 4) == "    ";
  }

  /** Every line of the template after the first is measured, `n` blanks deeper than before; the first is not. */
  lemma MarginedIndents(lines: seq<string>, n: nat)
    requires 0 < n && |lines| > 0
    requires forall i | 0 <= i < |lines| :: Indent(lines[i]) < |lines[i]|
    requires Indent(lines[0]) == 0
    ensures !Indented(Margined(lines, n)[0])
    ensures forall i | 0 < i < |lines| ::
              Indent(Margined(lines, n)[i]) == n + Indent(lines[i]) && Indented(Margined(lines, n)[i])
  {
    forall i | 0 < i < |lines|
      ensures Indent(Margined(lines, n)[i]) == n + Indent(lines[i]) && Indented(Margined(lines, n)[i])
    {
      assert Margined(lines, n)[i] == Repeat(' ', n) + lines[i];
      IndentOfMarginedLine(lines[i], n);
    }
  }

  /** The lines after the first lose `k` characters. */
  function Unmargined(lines: seq<string>, k: nat): seq<string>
  {
    seq(|lines|, i requires 0 <= i < |lines| => if i == 0 then lines[0] else Slice(lines[i], k))
  }

  /** Taking `m` characters off the template's indented lines takes `m - n` off the lines themselves. */
  lemma DedentMargined(lines: seq<string>, n: nat, m: nat)
    requires 0 < n <= m && |lines| > 0
    requires Indent(lines[0]) == 0 < |lines[0]|
    ensures DedentBy(Margined(lines, n), Some(m)) == Unmargined(lines, m - n)
  {
    var a := Margined(lines, n);
    var d := DedentBy(a, Some(m));
    assert d[0] == lines[0] by {
      assert lines[0][0] != ' ';
    }
    forall i | 0 < i < |lines|
      ensures d[i] == Slice(lines[i], m - n)
    {
      assert a[i] == Repeat(' ', n) + lines[i];
      assert a[i][0] == ' ';
      if m <= |a[i]| {
        assert a[i][m..] == lines[i][m - n..];
      }
    }
  }

  // ---------------------------------------------------------------------------
  // The frame

  /** A `SourceLocation` endpoint. */
  datatype Position = Position(line: int, column: int)

  /** The four lines of the frame; an omitted line is the empty string. */
  datatype Frame = Frame(before: string, code: string, caret: string, after: string)

  /** The lines of the frame the template literal holds once `trim` has dropped the omitted ones at either end. */
  function Shown(r: Frame): seq<string>
  {
    (if r.before != "" then [r.before] else []) + [r.code, r.caret] + (if r.after != "" then [r.after] else [])
  }

  /**
    What `createHighlightedCodeFrame` returns, as its lines: the template
    literal after `trim` and `dedent`.  Only the indentation `dedent` takes
    away is modelled; its joining of a line that ends in a backslash with the
    next one and its unescaping of `` \` `` are not.
   */
  function Printed(r: Frame): seq<string>
  {
    Dedent(Template(Shown(r)))
  }

  /** `` `${codeLines[i]}` ``: an index outside the array interpolates as `undefined`. */
  function LineAt(lines: seq<string>, i: int): (r: string)
    ensures 0 <= i < |lines| ==> r == lines[i]
    ensures r in lines || r == "undefined"
  {
    if 0 <= i < |lines| then lines[i] else "undefined"
  }

  /** `` `${n} | ${line}` ``: the label, then `" | "`, then the line. */
  function Labelled(n: int, line: string): (r: string)
    ensures |r| == |DecimalString(n)| + 3 + |line|
    ensures r[..|DecimalString(n)|] == DecimalString(n) && r[|r| - |line|..] == line
  {
    DecimalString(n) + " | " + line
  }

  /** `n.toString().length` for a line number `filter(Boolean)` keeps, 0 for one it drops. */
  function LabelLength(n: int): nat
  {
    if n != 0 then |DecimalString(n)| else 0
  }

  /**
    `longestLineNumberLength`: `Math.max` over the label lengths of the line
    before, the start line and the line after, zero numbers left out.  The
    start line and the line before are consecutive, so not all are zero.
   */
  function LabelWidth(start: Position, end: Position): (r: nat)
    ensures LabelLength(start.line - 2) <= r && LabelLength(start.line - 1) <= r && LabelLength(end.line) <= r
    ensures r == LabelLength(start.line - 2) || r == LabelLength(start.line - 1) || r == LabelLength(end.line)
    ensures r >= 1
  {
    var before := LabelLength(start.line - 2);
    var code := LabelLength(start.line - 1);
    var after := LabelLength(end.line);
    var widest := if before >= code then before else code;
    if after >= widest then after else widest
  }

  /**
    `` `${lineNumberPadding}   ${propIndicatorLength.padStart(end.column, ' ')}` ``:
    `width` blanks for the label, three for `" | "`, then `^` from column `from`
    up to column `to`.
   */
  function CaretLine(width: nat, from: int, to: int): (r: string)
    ensures |r| >= width + 3 && forall j | 0 <= j < width + 3 :: r[j] == ' '
  {
    PadStart("", width, ' ') + "   " + PadStart(PadStart("", to - from, '^'), to, ' ')
  }

  /** The caret line is blank up to `from` past the label, then holds one `^` per column up to `to`. */
  lemma CaretLineMarksColumns(width: nat, from: int, to: int)
    requires 0 <= from <= to
    ensures |CaretLine(width, from, to)| == width + 3 + to
    ensures forall j | 0 <= j < width + 3 + from :: CaretLine(width, from, to)[j] == ' '
    ensures forall j | width + 3 + from <= j < width + 3 + to :: CaretLine(width, from, to)[j] == '^'
  {
    var blanks := PadStart("", width, ' ');
    var carets := PadStart("", to - from, '^');
    var padded := PadStart(carets, to, ' ');
    assert |blanks| == width && |carets| == to - from && |padded| == to;
    var r := blanks + "   " + padded;
    assert CaretLine(width, from, to) == r;
    forall j | 0 <= j < width + 3 + from
      ensures r[j] == ' '
    {
      if j >= width + 3 {
        assert r[j] == padded[j - width - 3];
      }
    }
    forall j | width + 3 + from <= j < width + 3 + to
      ensures r[j] == '^'
    {
      assert r[j] == padded[j - width - 3] == carets[j - width - 3 - from];
    }
  }

  /** `createHighlightedCodeFrame` up to the template literal, `trim` and `dedent`. */
  function HighlightedCodeFrame(code: string, start: Position, end: Position): (r: Frame)
    ensures r.before != "" ==> start.line >= 3
    ensures var line := LineAt(Split(code), start.line - 1);
            |r.code| >= |line| && r.code[|r.code| - |line|..] == line
  {
    var lines := Split(code);
    var codeNumber := start.line - 1;
    var beforeNumber := start.line - 2;
    var afterNumber := end.line;
    Frame(
      if beforeNumber > 0 then Labelled(beforeNumber, LineAt(lines, beforeNumber)) else "",
      Labelled(codeNumber, LineAt(lines, codeNumber)),
      CaretLine(LabelWidth(start, end), start.column, end.column),
      if afterNumber < |lines| then Labelled(afterNumber, LineAt(lines, afterNumber)) else "")
  }

  /** The start line of a text made of `lines` is the frame's middle line, under its index. */
  lemma CodeLineShowsStartLine(lines: seq<string>, start: Position, end: Position)
    requires |lines| >= 1 && forall i | 0 <= i < |lines| :: '\n' !in lines[i]
    requires 1 <= start.line <= |lines|
    ensures HighlightedCodeFrame(Join(lines), start, end).code
         == DecimalString(start.line - 1) + " | " + lines[start.line - 1]
  {
    SplitJoin(lines);
    assert LineAt(Split(Join(lines)), start.line - 1) == lines[start.line - 1];
  }

  /** The line before is shown only from the third line of the text on. */
  lemma BeforeLineShownFromThirdLine(code: string, start: Position, end: Position)
    ensures HighlightedCodeFrame(code, start, end).before != "" <==> start.line >= 3
  {
  }

  /** The line after is shown exactly when `end.line` indexes a line of the text. */
  lemma AfterLineShownWhenItExists(code: string, start: Position, end: Position)
    ensures HighlightedCodeFrame(code, start, end).after != "" <==> end.line < |Split(code)|
  {
  }

  /** Under a label of `width` characters and `" | "`, the caret line marks the characters `from` up to `to` of `line`. */
  lemma CaretsUnderLabelledLine(prefix: string, line: string, width: nat, from: int, to: int)
    requires |prefix| == width && 0 <= from <= to <= |line|
    ensures |CaretLine(width, from, to)| == width + 3 + to <= |prefix + " | " + line|
    ensures forall j | width + 3 + from <= j < width + 3 + to ::
              CaretLine(width, from, to)[j] == '^' && (prefix + " | " + line)[j] == line[j - width - 3]
  {
    var shown := prefix + " | " + line;
    forall j | width + 3 <= j < width + 3 + |line|
      ensures shown[j] == line[j - width - 3]
    {
    }
    CaretLineMarksColumns(width, from, to);
  }

  /**
    When the start line's label is the widest, the `^`s of the frame `r` sit
    exactly under the characters of the start line `line` from `start.column`
    up to `end.column`, past the `width` characters of the label and `" | "`.
   */
  lemma CaretsAlignUnderWidestLabel(code: string, start: Position, end: Position, r: Frame, line: string, width: nat)
    requires r == HighlightedCodeFrame(code, start, end)
    requires 1 <= start.line <= |Split(code)| && line == Split(code)[start.line - 1]
    requires width == LabelWidth(start, end) == |DecimalString(start.line - 1)|
    requires 0 <= start.column <= end.column <= |line|
    ensures |r.caret| == width + 3 + end.column <= |r.code|
    ensures forall j | width + 3 + start.column <= j < width + 3 + end.column ::
              r.caret[j] == '^' && r.code[j] == line[j - (width + 3)]
    ensures (r.before != "" || r.after != "") && start.column < end.column ==> Printed(r) == Shown(r)
  {
    FrameCodeAndCaret(code, start, end);
    CaretsUnderLabelledLine(DecimalString(start.line - 1), line, width, start.column, end.column);
    if (r.before != "" || r.after != "") && start.column < end.column {
      PrintedFrameIsItsLines(code, start, end);
    }
  }

  /** The middle line and the caret line of the frame, for a start line inside the text. */
  lemma FrameCodeAndCaret(code: string, start: Position, end: Position)
    requires 1 <= start.line <= |Split(code)|
    ensures HighlightedCodeFrame(code, start, end).code
         == DecimalString(start.line - 1) + " | " + Split(code)[start.line - 1]
    ensures HighlightedCodeFrame(code, start, end).caret
         == CaretLine(LabelWidth(start, end), start.column, end.column)
  {
  }

  /** A labelled line starts with its label: a digit or a minus sign, never a blank. */
  lemma LabelledStartsUnindented(n: int, line: string)
    ensures Indent(Labelled(n, line)) == 0 < |Labelled(n, line)|
  {
    var d := DecimalString(n);
    if n >= 0 {
      assert IsDigit(Digits(n)[0]);
    }
    assert Labelled(n, line)[0] == d[0] != ' ';
  }

  /** A caret line that marks a column holds something besides blanks. */
  lemma CaretLineNotBlank(width: nat, from: int, to: int)
    requires 0 <= from < to
    ensures Indent(CaretLine(width, from, to)) < |CaretLine(width, from, to)|
  {
    CaretLineMarksColumns(width, from, to);
    assert CaretLine(width, from, to)[width + 3 + from] == '^';
  }

  /** A frame line `dedent` must leave as it is: empty (omitted), or starting with something besides a blank. */
  predicate Unindented(l: string)
  {
    l == "" || Indent(l) == 0 < |l|
  }

  /**
    When the line before or the line after is shown, and the caret line holds
    something besides blanks, `dedent` gives back the frame's own lines.
   */
  lemma PrintedIsShown(r: Frame)
    requires Unindented(r.before) && Unindented(r.after) && Indent(r.code) == 0 < |r.code|
    requires Indent(r.caret) < |r.caret|
    requires r.before != "" || r.after != ""
    ensures Printed(r) == Shown(r)
  {
    var lines := Shown(r);
    if r.before != "" {
      assert lines == [r.before, r.code, r.caret] + (if r.after != "" then [r.after] else []);
      DedentUndoesTemplate(lines, 1);
    } else {
      assert lines == [r.code, r.caret, r.after];
      DedentUndoesTemplate(lines, 2);
    }
  }

  /**
    When the line before or the line after is shown, and at least one column
    is marked, the function returns the frame's own lines: the `^`s keep their
    place under the middle line.
   */
  lemma PrintedFrameIsItsLines(code: string, start: Position, end: Position)
    requires 0 <= start.column < end.column
    requires HighlightedCodeFrame(code, start, end).before != "" || HighlightedCodeFrame(code, start, end).after != ""
    ensures Printed(HighlightedCodeFrame(code, start, end)) == Shown(HighlightedCodeFrame(code, start, end))
  {
    var labels := Split(code);
    LabelledStartsUnindented(start.line - 1, LineAt(labels, start.line - 1));
    LabelledStartsUnindented(start.line - 2, LineAt(labels, start.line - 2));
    LabelledStartsUnindented(end.line, LineAt(labels, end.line));
    CaretLineNotBlank(LabelWidth(start, end), start.column, end.column);
    PrintedIsShown(HighlightedCodeFrame(code, start, end));
  }

  /** The frame's middle line is printed right before its caret line. */
  lemma ShownCodeThenCaret(r: Frame)
    ensures var p, k := Shown(r), if r.before != "" then 1 else 0;
            k + 1 < |p| && p[k] == r.code && p[k + 1] == r.caret
  {
  }

  /**
    With neither the line before nor the line after shown, the caret line is
    the only indented line, so `dedent` strips every blank in front of the `^`:
    for a one-line text the `^` meant for the `b` of `ab` ends up in column 0.
   */
  lemma CaretLostWithoutNeighbours()
    ensures var r := HighlightedCodeFrame("ab", Position(1, 1), Position(1, 2));
            && r.before == "" && r.after == ""
            && r.code == "0 | ab" && r.code[5] == 'b' && r.caret[5] == ' ' && r.caret[6] == '^'
            && Printed(r) == ["0 | ab", "^"]
  {
    var r := Frame("", "0 | ab", "      ^", "");
    OneLineFrame("ab", Position(1, 1), Position(1, 2));
    IndentIs(r.code, 0);
    IndentIs(r.caret, 6);
    CaretAloneIsDedented(r);
    assert r.caret[6..] == "^";
  }

  /** The frame of the second character of the one-line text `ab`. */
  lemma OneLineFrame(code: string, start: Position, end: Position)
    requires code == "ab" && start == Position(1, 1) && end == Position(1, 2)
    ensures HighlightedCodeFrame(code, start, end) == Frame("", "0 | ab", "      ^", "")
  {
    OneLineParts(code, start, end);
  }

  lemma OneLineParts(code: string, start: Position, end: Position)
    requires code == "ab" && start == Position(1, 1) && end == Position(1, 2)
    ensures Split(code) == ["ab"] && LabelWidth(start, end) == 2
    ensures Labelled(0, "ab") == "0 | ab" && CaretLine(2, 1, 2) == "      ^"
  {
    assert Split(code) == ["ab"] by {
      SplitJoin(["ab"]);
      assert Join(["ab"]) == "ab";
    }
    assert LabelWidth(start, end) == 2 by {
      assert DecimalString(-1) == "-1";
      assert DecimalString(1) == "1";
    }
    assert Labelled(0, "ab") == "0 | ab" by {
      assert DecimalString(0) == "0";
    }
    CaretLineMarksColumns(2, 1, 2);
  }

  /**
    A frame of a middle line and a caret line only: the caret line is the one
    indented line, and `dedent` takes away all its leading blanks.
   */
  lemma CaretAloneIsDedented(r: Frame)
    requires r.before == "" && r.after == ""
    requires Indent(r.code) == 0 < |r.code| && Indent(r.caret) < |r.caret|
    ensures Printed(r) == [r.code, r.caret[Indent(r.caret)..]]
  {
    var n := Indent(r.caret);
    var indented := "    " + r.caret;
    assert Shown(r) == [r.code, r.caret];
    TemplateOfTwo(r.code, r.caret);
    assert Indent(indented) == 4 + n && Indented(indented) by {
      IndentOfTemplateLine(r.caret);
    }
    assert !Indented(r.code) && r.code[0] != ' ';
    LeastIndentOfTwo(r.code, indented);
    DedentOfTwo(r.code, indented, 4 + n);
    assert Slice(indented, 4 + n) == r.caret[n..];
    assert Printed(r) == DedentBy([r.code, indented], Some(4 + n));
  }

  lemma TemplateOfTwo(a: string, b: string)
    ensures Template([a, b]) == [a, "    " + b]
  {
  }

  lemma DedentOfTwo(a: string, b: string, m: nat)
    requires (a == "" || a[0] != ' ') && b != "" && b[0] == ' '
    ensures DedentBy([a, b], Some(m)) == [a, Slice(b, m)]
  {
    var d := DedentBy([a, b], Some(m));
    assert |d| == 2 && d[0] == a && d[1] == Slice(b, m);
  }

  lemma LeastIndentOfTwo(a: string, b: string)
    requires !Indented(a) && Indented(b)
    ensures LeastIndent([a, b]) == Some(Indent(b))
  {
    assert [a, b][1..] == [b];
    assert LeastIndent([b]) == Some(Indent(b));
  }

  /**
    On the first line the labels are `-1` (the line before, not shown), `0` and
    `1`; `-1` is two characters wide, so the `^` lands one column right of the
    character it marks.
   */
  lemma CaretMisalignedOnFirstLine()
    ensures var r := HighlightedCodeFrame("a\nb", Position(1, 0), Position(1, 1));
            && r.code == "0 | a" && r.caret == "     ^"
            && r.code[4] == 'a' && r.caret[4] == ' '
  {
    FirstLineParts("a\nb", Position(1, 0), Position(1, 1));
  }

  lemma FirstLineParts(code: string, start: Position, end: Position)
    requires code == "a\nb" && start == Position(1, 0) && end == Position(1, 1)
    ensures Split(code) == ["a", "b"] && LabelWidth(start, end) == 2
    ensures Labelled(0, "a") == "0 | a" && CaretLine(2, 0, 1) == "     ^"
  {
    assert Split(code) == ["a", "b"] by {
      SplitJoin(["a", "b"]);
      assert Join(["a", "b"]) == "a\nb";
    }
    assert LabelWidth(start, end) == 2 by {
      assert DecimalString(-1) == "-1";
      assert DecimalString(1) == "1";
    }
    assert Labelled(0, "a") == "0 | a" by {
      assert DecimalString(0) == "0";
    }
    CaretLineMarksColumns(2, 0, 1);
  }

  /** On the second line the first line of the text is never shown before it. */
  lemma FirstLineNeverShownBefore()
    ensures HighlightedCodeFrame("a\nb", Position(2, 0), Position(2, 1)).before == ""
    ensures Split("a\nb")[0] == "a"
  {
    SplitJoin(["a", "b"]);
    assert Join(["a", "b"]) == "a\nb";
  }

  /**
    The frame with both defects corrected: the line before is shown from the
    second line on, and the start line's label is padded to the widest label so
    that the `^`s sit under the characters they mark.
   */
  function AlignedCodeFrame(code: string, start: Position, end: Position): (r: Frame)
    ensures r.before != "" ==> start.line >= 2
    ensures |r.code| == LabelWidth(start, end) + 3 + |LineAt(Split(code), start.line - 1)|
  {
    var lines := Split(code);
    var codeNumber := start.line - 1;
    var beforeNumber := start.line - 2;
    var afterNumber := end.line;
    var width := LabelWidth(start, end);
    var padded := PadStart(DecimalString(codeNumber), width, ' ');
    assert |DecimalString(codeNumber)| <= width;
    assert |padded| == width;
    Frame(
      if beforeNumber >= 0 then Labelled(beforeNumber, LineAt(lines, beforeNumber)) else "",
      padded + " | " + LineAt(lines, codeNumber),
      CaretLine(width, start.column, end.column),
      if afterNumber < |lines| then Labelled(afterNumber, LineAt(lines, afterNumber)) else "")
  }

  /**
    The corrected frame is returned as its lines joined by newlines, without
    the template literal's indentation that `dedent` would have to take away.
   */
  function AlignedPrinted(code: string, start: Position, end: Position): seq<string>
  {
    Shown(AlignedCodeFrame(code, start, end))
  }

  /** The corrected frame shows the line before exactly from the second line on, under its index. */
  lemma AlignedFrameShowsLineBefore(lines: seq<string>, start: Position, end: Position)
    requires |lines| >= 1 && forall i | 0 <= i < |lines| :: '\n' !in lines[i]
    ensures AlignedCodeFrame(Join(lines), start, end).before != "" <==> start.line >= 2
    ensures 2 <= start.line <= |lines| + 1 ==>
              (AlignedCodeFrame(Join(lines), start, end).before
               == DecimalString(start.line - 2) + " | " + lines[start.line - 2])
  {
    SplitJoin(lines);
  }

  /** The middle line and the caret line of the corrected frame, for a start line inside the text. */
  lemma AlignedCodeAndCaret(code: string, start: Position, end: Position)
    requires 1 <= start.line <= |Split(code)|
    ensures AlignedCodeFrame(code, start, end).code
         == PadStart(DecimalString(start.line - 1), LabelWidth(start, end), ' ') + " | " + Split(code)[start.line - 1]
    ensures AlignedCodeFrame(code, start, end).caret
         == CaretLine(LabelWidth(start, end), start.column, end.column)
  {
  }

  /**
    In the corrected frame `r` the `^`s sit under the marked characters of the
    start line `line`, on every line, and it is printed with the caret line
    right under the start line: past the `width` characters of the widest
    label and `" | "`, blanks up to `start.column`, then one `^` per character
    up to `end.column`.
   */
  lemma AlignedFrameUnderlinesColumns(code: string, start: Position, end: Position, r: Frame, line: string, width: nat)
    requires r == AlignedCodeFrame(code, start, end)
    requires 1 <= start.line <= |Split(code)| && line == Split(code)[start.line - 1]
    requires width == LabelWidth(start, end)
    requires 0 <= start.column <= end.column <= |line|
    ensures |r.caret| == width + 3 + end.column <= |r.code|
    ensures forall j | width + 3 <= j < width + 3 + start.column :: r.caret[j] == ' '
    ensures forall j | width + 3 + start.column <= j < width + 3 + end.column ::
              r.caret[j] == '^' && r.code[j] == line[j - (width + 3)]
    // The definition of `AlignedPrinted` unfolded, so that the alignment
    // above and the order below are facts about the returned lines.
    ensures AlignedPrinted(code, start, end) == Shown(r)
    ensures var k := if r.before != "" then 1 else 0;
            k + 1 < |Shown(r)| && Shown(r)[k] == r.code && Shown(r)[k + 1] == r.caret
  {
    ShownCodeThenCaret(r);
    var prefix := PadStart(DecimalString(start.line - 1), width, ' ');
    AlignedCodeAndCaret(code, start, end);
    CaretsUnderLabelledLine(prefix, line, width, start.column, end.column);
    CaretLineMarksColumns(width, start.column, end.column);
  }
}
