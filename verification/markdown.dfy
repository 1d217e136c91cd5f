/** The Markdown renderer of tools/docx_to_md.py over an abstract document:
    runs, paragraphs, tables, and the joining of rendered blocks. */
module Markdown {
  import opened Options
  import opened Text
  import opened PyNum
  import opened Runs

  /** A run of text with its character formatting. */
  datatype Run = Run(text: string, bold: bool, italic: bool)

  /** A paragraph: style name ("" when it has none), runs, whether it carries
      list numbering, and its left indent in EMU (0 when unset). */
  datatype Paragraph = Paragraph(style: string, runs: seq<Run>, numbered: bool, leftIndent: int)

  datatype Cell = Cell(paragraphs: seq<Paragraph>)

  datatype Table = Table(rows: seq<seq<Cell>>)

  /** The body-level blocks of a document, in document order. */
  datatype Block = Para(paragraph: Paragraph) | Grid(table: Table)

  // ---------------------------------------------------------------------------
  // `runs_to_markdown`
  // ---------------------------------------------------------------------------

  /** `s.replace(a, b)` for single characters. */
  function ReplaceChar(s: string, a: char, b: char): (r: string)
    ensures |r| == |s|
    ensures forall i :: 0 <= i < |s| ==> r[i] == (if s[i] == a then b else s[i])
  {
    seq(|s|, i requires 0 <= i < |s| => if s[i] == a then b else s[i])
  }

  /** `s.replace("  ", " ")`: one left-to-right pass over non-overlapping
      pairs of spaces, so three spaces become two. */
  function HalvePairs(s: string): (r: string)
    ensures |r| <= |s|
  {
    if |s| >= 2 && s[0] == ' ' && s[1] == ' ' then " " + HalvePairs(s[2..])
    else if |s| == 0 then ""
    else [s[0]] + HalvePairs(s[1..])
  }

  /** `s` without its spaces. */
  function WithoutSpaces(s: string): (r: string)
    ensures ' ' !in r
  {
    if |s| == 0 then "" else (if s[0] == ' ' then "" else [s[0]]) + WithoutSpaces(s[1..])
  }

  lemma {:induction false} WithoutSpacesAppend(a: string, b: string)
    ensures WithoutSpaces(a + b) == WithoutSpaces(a) + WithoutSpaces(b)
  {
    if |a| == 0 {
      assert a + b == b;
    } else {
      var ab := a + b;
      var head := if a[0] == ' ' then "" else [a[0]];
      assert ab[0] == a[0];
      assert ab[1..] == a[1..] + b;
      WithoutSpacesAppend(a[1..], b);
      assert WithoutSpaces(ab) == head + WithoutSpaces(ab[1..]);
      assert WithoutSpaces(a) == head + WithoutSpaces(a[1..]);
    }
  }

  /** Halving removes only spaces, and only one of each pair it meets. */
  lemma {:induction false} HalvePairsRemovesOnlySpaces(s: string)
    ensures WithoutSpaces(HalvePairs(s)) == WithoutSpaces(s)
    ensures '\n' !in s ==> '\n' !in HalvePairs(s)
  {
    if |s| >= 2 && s[0] == ' ' && s[1] == ' ' {
      HalvePairsRemovesOnlySpaces(s[2..]);
      WithoutSpacesAppend(" ", HalvePairs(s[2..]));
      assert WithoutSpaces(s) == WithoutSpaces(s[1..]);
      assert WithoutSpaces(s[1..]) == WithoutSpaces(s[1..][1..]);
      assert s[1..][1..] == s[2..];
    } else if |s| > 0 {
      HalvePairsRemovesOnlySpaces(s[1..]);
      WithoutSpacesAppend([s[0]], HalvePairs(s[1..]));
    }
  }

  /** A string without two neighbouring spaces is left as it is. */
  lemma {:induction false} HalvePairsKeepsSingleSpaces(s: string)
    requires forall i :: 0 < i < |s| ==> !(s[i - 1] == ' ' && s[i] == ' ')
    ensures HalvePairs(s) == s
  {
    if |s| > 0 {
      HalvePairsKeepsSingleSpaces(s[1..]);
      assert s == [s[0]] + s[1..];
    }
  }

  /** Three spaces become two, not one: the pass does not re-scan what it wrote. */
  lemma HalvePairsOfThreeSpaces()
    ensures HalvePairs("   ") == "  "
  {
    assert "   "[2..] == " ";
    assert HalvePairs(" ") == " ";
  }

  /** A run of k spaces becomes a run of ceil(k / 2) spaces. */
  lemma {:induction false} HalvePairsOfSpaces(k: nat)
    ensures HalvePairs(Repeat(" ", k)) == Repeat(" ", (k + 1) / 2)
  {
    if k >= 2 {
      var m := (k - 1) / 2;
      var rest := Repeat(" ", k - 2);
      assert Repeat(" ", k) == " " + (" " + rest) by {
        SpaceCons(k - 2);
        SpaceCons(k - 1);
      }
      assert Repeat(" ", (k + 1) / 2) == " " + Repeat(" ", m) by {
        assert (k + 1) / 2 == m + 1;
        SpaceCons(m);
      }
      HalvePairsOfSpaces(k - 2);
      SpacePairHalved(rest, Repeat(" ", m));
    } else if k == 1 {
      SpaceCons(0);
      assert HalvePairs(" ") == [' '] + HalvePairs("");
    }
  }

  lemma SpaceCons(n: nat)
    ensures Repeat(" ", n + 1) == " " + Repeat(" ", n)
  {
  }

  /** Two leading spaces become one. */
  lemma SpacePairHalved(rest: string, h: string)
    requires HalvePairs(rest) == h
    ensures HalvePairs(" " + (" " + rest)) == " " + h
  {
    var s := " " + (" " + rest);
    assert s[0] == ' ' && s[1] == ' ' && s[2..] == rest;
  }

  /** A non-space character is never part of a pair: halving works on either
      side of it separately. */
  lemma {:induction false} HalvePairsAround(a: string, c: char, b: string)
    requires c != ' '
    ensures HalvePairs(a + [c] + b) == HalvePairs(a) + [c] + HalvePairs(b)
  {
    var s := a + [c] + b;
    if |a| == 0 {
      assert s == [c] + b && s[1..] == b;
      assert HalvePairs(s) == [c] + HalvePairs(b);
    } else if |a| >= 2 && a[0] == ' ' && a[1] == ' ' {
      var t := a[2..];
      assert s[0] == ' ' && s[1] == ' ' && s[2..] == t + [c] + b;
      assert HalvePairs(s) == " " + HalvePairs(t + [c] + b);
      assert HalvePairs(a) == " " + HalvePairs(t);
      HalvePairsAround(t, c, b);
      Regroup(" ", HalvePairs(t), [c], HalvePairs(b));
    } else {
      var t := a[1..];
      assert s[0] == a[0] && s[1] == (if |a| == 1 then c else a[1]);
      assert s[1..] == t + [c] + b;
      assert HalvePairs(s) == [a[0]] + HalvePairs(t + [c] + b);
      assert HalvePairs(a) == [a[0]] + HalvePairs(t);
      HalvePairsAround(t, c, b);
      Regroup([a[0]], HalvePairs(t), [c], HalvePairs(b));
    }
  }

  lemma Regroup(w: string, x: string, y: string, z: string)
    ensures w + (x + y + z) == (w + x) + y + z
  {
  }

  lemma {:induction false} RepeatSpaces(k: nat)
    ensures forall i :: 0 <= i < k ==> Repeat(" ", k)[i] == ' '
  {
    if k > 0 {
      RepeatSpaces(k - 1);
      assert Repeat(" ", k) == " " + Repeat(" ", k - 1);
    }
  }

  /** A run's text of k spaces is normalised to ceil(k / 2) spaces. */
  lemma NormalizeOfSpaces(k: nat)
    ensures Normalize(Repeat(" ", k)) == Repeat(" ", (k + 1) / 2)
  {
    RepeatSpaces(k);
    assert ReplaceChar(Repeat(" ", k), '\n', ' ') == Repeat(" ", k);
    HalvePairsOfSpaces(k);
  }

  /** Line breaks become spaces, then pairs of spaces are halved. */
  function Normalize(s: string): (r: string)
    ensures '\n' !in r
    ensures WithoutSpaces(r) == WithoutSpaces(ReplaceChar(s, '\n', ' '))
  {
    var flat := ReplaceChar(s, '\n', ' ');
    HalvePairsRemovesOnlySpaces(flat);
    HalvePairs(flat)
  }

  /** Bold wraps the text in `**`, then italic wraps that in `*`. */
  function Emphasize(t: string, bold: bool, italic: bool): string
  {
    var b := if bold then "**" + t + "**" else t;
    if italic then "*" + b + "*" else b
  }

  /** Takes `marker` off both ends of `s`, if it is there. */
  function Unmark(s: string, marker: string): Option<string>
  {
    if |s| >= 2 * |marker| && s[..|marker|] == marker && s[|s| - |marker|..] == marker then
      Some(s[|marker|..|s| - |marker|])
    else None
  }

  /** Reads the emphasis back off: italic markers first, then bold ones. */
  function Unemphasize(s: string, bold: bool, italic: bool): Option<string>
  {
    var inner := if italic then Unmark(s, "*") else Some(s);
    match inner
    case None => None
    case Some(b) => if bold then Unmark(b, "**") else Some(b)
  }

  lemma UnmarkMarked(t: string, marker: string)
    ensures Unmark(marker + t + marker, marker) == Some(t)
  {
    var s := marker + t + marker;
    assert s[..|marker|] == marker;
    assert s[|s| - |marker|..] == marker;
    assert s[|marker|..|s| - |marker|] == t;
  }

  /** The emphasis markers read back to the run's text and formatting. */
  lemma EmphasisReadsBack(t: string, bold: bool, italic: bool)
    ensures Unemphasize(Emphasize(t, bold, italic), bold, italic) == Some(t)
  {
    UnmarkMarked(t, "**");
    if italic {
      UnmarkMarked(if bold then "**" + t + "**" else t, "*");
    }
  }

  /** What one run contributes: nothing when it is empty, its whitespace as it
      is, and otherwise its normalised text with emphasis. */
  function RunText(run: Run): (r: string)
    ensures '\n' !in r
  {
    if run.text == "" then ""
    else
      var t := Normalize(run.text);
      if Strip(t) == "" then t
      else
        EmphasizeOneLine(t, run.bold, run.italic);
        Emphasize(t, run.bold, run.italic)
  }

  lemma EmphasizeOneLine(t: string, bold: bool, italic: bool)
    requires '\n' !in t
    ensures '\n' !in Emphasize(t, bold, italic)
  {
    var b := if bold then "**" + t + "**" else t;
    assert '\n' !in b;
  }

  /** `"".join(parts)`. */
  function Concat(parts: seq<string>): string
  {
    Join(parts, "")
  }

  function RunTexts(runs: seq<Run>): (r: seq<string>)
    ensures |r| == |runs|
    ensures forall i :: 0 <= i < |runs| ==> r[i] == RunText(runs[i])
  {
    seq(|runs|, i requires 0 <= i < |runs| => RunText(runs[i]))
  }

  /** `runs_to_markdown`: the runs' contributions, concatenated in order, with
      whitespace trimmed from the two ends only. */
  function RunsToMarkdown(runs: seq<Run>): (r: string)
    ensures '\n' !in r
    ensures r == "" || (!IsSpace(r[0]) && !IsSpace(r[|r| - 1]))
    ensures IsTrimOf(r, Concat(RunTexts(runs)))
  {
    var joined := Concat(RunTexts(runs));
    JoinExcludes(RunTexts(runs), "", '\n');
    Strip(joined)
  }

  /** Joining with no separator is concatenation: the parts appear in order. */
  lemma {:induction false} ConcatAppend(xs: seq<string>, ys: seq<string>)
    ensures Concat(xs + ys) == Concat(xs) + Concat(ys)
  {
    if |xs| == 0 {
      assert xs + ys == ys;
    } else {
      assert (xs + ys)[1..] == xs[1..] + ys;
      ConcatAppend(xs[1..], ys);
      ConcatCons(xs + ys);
      ConcatCons(xs);
    }
  }

  lemma ConcatCons(xs: seq<string>)
    requires |xs| >= 1
    ensures Concat(xs) == xs[0] + Concat(xs[1..])
  {
    if |xs| == 1 {
      assert Concat(xs[1..]) == "";
    }
  }

  lemma RunTextsAppend(a: seq<Run>, b: seq<Run>)
    ensures RunTexts(a + b) == RunTexts(a) + RunTexts(b)
  {
    assert forall i :: 0 <= i < |a| ==> (a + b)[i] == a[i];
    assert forall i :: |a| <= i < |a| + |b| ==> (a + b)[i] == b[i - |a|];
  }

  /** The runs' texts are concatenated in order: the text of `a + b` is that of
      `a` followed by that of `b`, before stripping. */
  lemma RunsConcatenate(a: seq<Run>, b: seq<Run>)
    ensures Concat(RunTexts(a + b)) == Concat(RunTexts(a)) + Concat(RunTexts(b))
  {
    RunTextsAppend(a, b);
    ConcatAppend(RunTexts(a), RunTexts(b));
  }

  /** A run with empty text is skipped, whatever its formatting. */
  lemma EmptyRunSkipped(a: seq<Run>, bold: bool, italic: bool, c: seq<Run>)
    ensures RunsToMarkdown(a + [Run("", bold, italic)] + c) == RunsToMarkdown(a + c)
  {
    var e := Run("", bold, italic);
    EmptyRunJoined(a, e, c);
    SameTextSameMarkdown(a + [e] + c, a + c);
  }

  lemma EmptyRunJoined(a: seq<Run>, e: Run, c: seq<Run>)
    requires e.text == ""
    ensures Concat(RunTexts(a + [e] + c)) == Concat(RunTexts(a + c))
  {
    RunsConcatenate(a + [e], c);
    RunsConcatenate(a, [e]);
    RunsConcatenate(a, c);
    EmptyRunText(e);
  }

  lemma SameTextSameMarkdown(xs: seq<Run>, ys: seq<Run>)
    requires Concat(RunTexts(xs)) == Concat(RunTexts(ys))
    ensures RunsToMarkdown(xs) == RunsToMarkdown(ys)
  {
  }

  lemma EmptyRunText(e: Run)
    requires e.text == ""
    ensures Concat(RunTexts([e])) == ""
  {
    assert RunTexts([e]) == [""];
  }

  /** A run whose text is only whitespace adds no emphasis markers. */
  lemma BlankRunUnmarked(run: Run)
    requires run.text != "" && AllSpace(Normalize(run.text))
    ensures RunText(run) == Normalize(run.text)
  {
    StripEmptyIffAllSpace(Normalize(run.text));
  }

  /** A run with visible text is its normalised text with the emphasis of its formatting. */
  lemma VisibleRunMarked(run: Run)
    requires !AllSpace(Normalize(run.text))
    ensures Unemphasize(RunText(run), run.bold, run.italic) == Some(Normalize(run.text))
  {
    StripEmptyIffAllSpace(Normalize(run.text));
    EmphasisReadsBack(Normalize(run.text), run.bold, run.italic);
  }

  // ---------------------------------------------------------------------------
  // `paragraph_to_markdown`
  // ---------------------------------------------------------------------------

  /** The characters of `s` that are decimal digits, in order. */
  function DigitsOf(s: string): (r: string)
    ensures AllDigits(r) && |r| <= |s|
  {
    if |s| == 0 then ""
    else (if IsDigit(s[0]) then [s[0]] else "") + DigitsOf(s[1..])
  }

  function Clamp(n: int, lo: int, hi: int): (r: int)
    requires lo <= hi
    ensures lo <= r <= hi
    ensures lo <= n <= hi ==> r == n
  {
    if n < lo then lo else if n > hi then hi else n
  }

  /** The heading level of a style name: its digits read as one number (1
      when it has none), clamped to 1..6. */
  function HeadingLevel(style: string): (level: nat)
    ensures 1 <= level <= 6
    ensures DigitsOf(style) == "" ==> level == 1
  {
    var digits := DigitsOf(style);
    Clamp(if digits != "" then DecimalValue(digits) else 1, 1, 6)
  }

  lemma DigitsOfDigits(s: string)
    requires AllDigits(s)
    ensures DigitsOf(s) == s
  {
  }

  lemma {:induction false} DigitsOfAppend(a: string, b: string)
    ensures DigitsOf(a + b) == DigitsOf(a) + DigitsOf(b)
  {
    if |a| == 0 {
      assert a + b == b;
    } else {
      assert (a + b)[1..] == a[1..] + b;
      DigitsOfAppend(a[1..], b);
    }
  }

  /** "Heading n" gives level n, clamped to 1..6. */
  lemma HeadingLevelOfNumber(n: nat)
    ensures HeadingLevel("Heading " + NatToString(n)) == Clamp(n, 1, 6)
  {
    var digits := NatToString(n);
    DigitsOfAppend("Heading ", digits);
    DigitsOfDigits(digits);
    DigitsOfNone("Heading ");
    assert DigitsOf("Heading " + digits) == digits;
    NatToStringRoundTrip(n);
    assert DecimalValue(digits) == n;
  }

  lemma {:induction false} DigitsOfNone(s: string)
    requires forall i :: 0 <= i < |s| ==> !IsDigit(s[i])
    ensures DigitsOf(s) == ""
  {
    if |s| > 0 {
      DigitsOfNone(s[1..]);
    }
  }

  predicate IsHeadingStyle(style: string)
  {
    StartsWith(style, "Heading")
  }

  /** A list paragraph: its style name mentions "List", or it carries numbering. */
  predicate IsListItem(p: Paragraph)
  {
    Contains(p.style, "List") || p.numbered
  }

  /** `int(indent / 360)`: the nesting depth of a list item, truncated toward zero. */
  function IndentLevel(indent: int): (level: int)
    ensures indent >= 0 ==> level >= 0 && level * 360 <= indent < (level + 1) * 360
    ensures indent < 0 ==> level <= 0
  {
    Trunc(indent as real / 360.0)
  }

  /** `paragraph_to_markdown`. */
  function ParagraphToMarkdown(p: Paragraph): (r: string)
    ensures r == "" <==> RunsToMarkdown(p.runs) == ""
  {
    var text := RunsToMarkdown(p.runs);
    if text == "" then ""
    else if IsHeadingStyle(p.style) then Repeat("#", HeadingLevel(p.style)) + " " + text
    else if IsListItem(p) then Repeat("  ", IndentLevel(p.leftIndent)) + "- " + text
    else text
  }

  /** The number of '#' characters `s` starts with. */
  function LeadingHashes(s: string): (n: nat)
    ensures n <= |s|
  {
    if |s| > 0 && s[0] == '#' then 1 + LeadingHashes(s[1..]) else 0
  }

  /** Reads a Markdown heading line: its level and its text. */
  function ReadHeading(s: string): Option<(nat, string)>
  {
    var k := LeadingHashes(s);
    if 1 <= k < |s| && s[k] == ' ' then Some((k, s[k + 1..])) else None
  }

  /** The number of two-space indents `s` starts with. */
  function LeadingIndents(s: string): (n: nat)
    ensures 2 * n <= |s|
  {
    if |s| >= 2 && s[0] == ' ' && s[1] == ' ' then 1 + LeadingIndents(s[2..]) else 0
  }

  /** Reads a Markdown list line: its nesting depth and its text. */
  function ReadListItem(s: string): Option<(nat, string)>
  {
    var k := LeadingIndents(s);
    if 2 * k + 2 <= |s| && s[2 * k] == '-' && s[2 * k + 1] == ' ' then Some((k, s[2 * k + 2..])) else None
  }

  lemma {:induction false} LeadingHashesOfRepeat(n: nat, rest: string)
    requires |rest| == 0 || rest[0] != '#'
    ensures LeadingHashes(Repeat("#", n) + rest) == n
  {
    if n > 0 {
      assert Repeat("#", n) + rest == "#" + (Repeat("#", n - 1) + rest);
      LeadingHashesOfRepeat(n - 1, rest);
    } else {
      assert Repeat("#", n) + rest == rest;
    }
  }

  lemma {:induction false} LeadingIndentsOfRepeat(n: nat, rest: string)
    requires |rest| == 0 || rest[0] != ' '
    ensures LeadingIndents(Repeat("  ", n) + rest) == n
  {
    if n > 0 {
      var s := Repeat("  ", n) + rest;
      assert s == "  " + (Repeat("  ", n - 1) + rest);
      assert s[2..] == Repeat("  ", n - 1) + rest;
      LeadingIndentsOfRepeat(n - 1, rest);
    } else {
      assert Repeat("  ", n) + rest == rest;
    }
  }

  function MaxZero(n: int): nat
  {
    if n > 0 then n else 0
  }

  /** A heading line reads back to its level and text. */
  lemma HeadingLineReadsBack(level: nat, text: string)
    requires level >= 1 && text != "" && !IsSpace(text[0])
    ensures ReadHeading(Repeat("#", level) + " " + text) == Some((level, text))
  {
    var r := Repeat("#", level) + " " + text;
    LeadingHashesOfRepeat(level, " " + text);
    assert r == Repeat("#", level) + (" " + text);
    assert r[level] == ' ';
    assert r[level + 1..] == text;
  }

  /** A list line reads back to its depth and text. */
  lemma ListLineReadsBack(depth: int, text: string)
    ensures ReadListItem(Repeat("  ", depth) + "- " + text) == Some((MaxZero(depth), text))
  {
    var m := MaxZero(depth);
    var r := Repeat("  ", depth) + "- " + text;
    assert Repeat("  ", depth) == Repeat("  ", m);
    LeadingIndentsOfRepeat(m, "- " + text);
    assert r == Repeat("  ", m) + ("- " + text);
    assert |Repeat("  ", m)| == 2 * m;
    assert r[2 * m] == '-' && r[2 * m + 1] == ' ';
    assert r[2 * m + 2..] == text;
  }

  /** A rendered paragraph reads back as what it is: a heading of its level,
      a list item of its depth (a negative indent counts as none), or its text. */
  lemma ParagraphReadsBack(p: Paragraph)
    ensures var text := RunsToMarkdown(p.runs);
            var r := ParagraphToMarkdown(p);
            text != "" ==>
            && (IsHeadingStyle(p.style) ==> ReadHeading(r) == Some((HeadingLevel(p.style), text)))
            && (!IsHeadingStyle(p.style) && IsListItem(p) ==> ReadListItem(r) == Some((MaxZero(IndentLevel(p.leftIndent)), text)))
            && (!IsHeadingStyle(p.style) && !IsListItem(p) ==> r == text)
  {
    var text := RunsToMarkdown(p.runs);
    if text == "" {
    } else if IsHeadingStyle(p.style) {
      HeadingLineReadsBack(HeadingLevel(p.style), text);
    } else if IsListItem(p) {
      ListLineReadsBack(IndentLevel(p.leftIndent), text);
    }
  }

  // ---------------------------------------------------------------------------
  // `table_to_markdown`
  // ---------------------------------------------------------------------------

  function ParagraphTexts(ps: seq<Paragraph>): (r: seq<string>)
    ensures |r| == |ps|
    ensures forall i :: 0 <= i < |ps| ==> r[i] == RunsToMarkdown(ps[i].runs)
  {
    seq(|ps|, i requires 0 <= i < |ps| => RunsToMarkdown(ps[i].runs))
  }

  /** A cell's text: its paragraphs' texts on separate lines, stripped. */
  function CellText(c: Cell): (r: string)
    ensures |c.paragraphs| <= 1 ==> '\n' !in r
  {
    var joined := Join(ParagraphTexts(c.paragraphs), "\n");
    StripKeepsAbsent(joined, '\n');
    Strip(joined)
  }

  function RowTexts(row: seq<Cell>): (r: seq<string>)
    ensures |r| == |row|
    ensures forall i :: 0 <= i < |row| ==> r[i] == CellText(row[i])
  {
    seq(|row|, i requires 0 <= i < |row| => CellText(row[i]))
  }

  function TableTexts(t: Table): (r: seq<seq<string>>)
    ensures |r| == |t.rows|
    ensures forall i :: 0 <= i < |t.rows| ==> r[i] == RowTexts(t.rows[i])
  {
    seq(|t.rows|, i requires 0 <= i < |t.rows| => RowTexts(t.rows[i]))
  }

  /** `max(len(row) for row in rows)`. */
  function Width(rows: seq<seq<string>>): (n: nat)
    requires |rows| > 0
    ensures forall i :: 0 <= i < |rows| ==> |rows[i]| <= n
    ensures exists i :: 0 <= i < |rows| && |rows[i]| == n
  {
    if |rows| == 1 then |rows[0]|
    else
      var rest := Width(rows[1..]);
      assert forall i :: 1 <= i < |rows| ==> rows[i] == rows[1..][i - 1];
      if |rows[0]| >= rest then |rows[0]| else rest
  }

  /** A row filled up with empty cells to `n` cells. */
  function Pad(row: seq<string>, n: nat): (r: seq<string>)
    requires |row| <= n
    ensures |r| == n
    ensures r[..|row|] == row
    ensures forall i :: |row| <= i < n ==> r[i] == ""
  {
    row + seq(n - |row|, _ => "")
  }

  /** `'|' + '|'.join(cells) + '|'`. */
  function RowLine(cells: seq<string>): string
  {
    "|" + Join(cells, "|") + "|"
  }

  /** `['---'] * n`. */
  function Dashes(n: nat): (r: seq<string>)
    ensures |r| == n && forall i :: 0 <= i < n ==> r[i] == "---"
  {
    seq(n, _ => "---")
  }

  /** The lines of a table: header row, separator, body rows. */
  function TableLines(rows: seq<seq<string>>): (r: seq<string>)
    requires |rows| > 0
    ensures |r| == |rows| + 1
    ensures r[0] == RowLine(Pad(rows[0], Width(rows)))
    ensures r[1] == RowLine(Dashes(Width(rows)))
    ensures forall i :: 1 <= i < |rows| ==> r[i + 1] == RowLine(Pad(rows[i], Width(rows)))
  {
    var width := Width(rows);
    seq(|rows| + 1, k requires 0 <= k <= |rows| =>
      if k == 1 then RowLine(Dashes(width)) else RowLine(Pad(rows[if k == 0 then 0 else k - 1], width)))
  }

  /** `table_to_markdown` on the cells' texts. */
  function RowsToMarkdown(rows: seq<seq<string>>): (r: string)
    ensures r == "" <==> |rows| == 0
  {
    if |rows| == 0 then ""
    else
      var lines := TableLines(rows);
      JoinAtLeastFirst(lines, "\n");
      Join(lines, "\n")
  }

  /** `table_to_markdown`. */
  function TableToMarkdown(t: Table): (r: string)
    ensures r == "" <==> |t.rows| == 0
  {
    RowsToMarkdown(TableTexts(t))
  }

  /** Reads the cells of a table line: drops the outer bars and splits at the inner ones. */
  function ReadRowLine(line: string): Option<seq<string>>
  {
    if |line| >= 2 && line[0] == '|' && line[|line| - 1] == '|' then Some(Split(line[1..|line| - 1], '|'))
    else None
  }

  lemma RowLineReadsBack(cells: seq<string>)
    requires |cells| >= 1
    requires forall i :: 0 <= i < |cells| ==> '|' !in cells[i]
    ensures ReadRowLine(RowLine(cells)) == Some(cells)
  {
    var line := RowLine(cells);
    assert line[1..|line| - 1] == Join(cells, "|");
    SplitJoin(cells, '|');
  }

  /** Cells whose text can sit on one table line. */
  predicate PlainCells(rows: seq<seq<string>>)
  {
    forall i, j :: 0 <= i < |rows| && 0 <= j < |rows[i]| ==> '|' !in rows[i][j] && '\n' !in rows[i][j]
  }

  lemma RowLineOneLine(cells: seq<string>)
    requires forall i :: 0 <= i < |cells| ==> '\n' !in cells[i]
    ensures '\n' !in RowLine(cells)
  {
    JoinExcludes(cells, "|", '\n');
  }

  /** Padding plain cells with empty ones keeps them plain. */
  lemma PaddedCellsPlain(row: seq<string>, width: nat)
    requires |row| <= width
    requires forall j :: 0 <= j < |row| ==> '|' !in row[j] && '\n' !in row[j]
    ensures forall j :: 0 <= j < width ==> '|' !in Pad(row, width)[j] && '\n' !in Pad(row, width)[j]
  {
    var padded := Pad(row, width);
    forall j | 0 <= j < width
      ensures '|' !in padded[j] && '\n' !in padded[j]
    {
      if j < |row| {
        assert padded[j] == padded[..|row|][j];
      }
    }
  }

  lemma PlainRow(rows: seq<seq<string>>, i: nat)
    requires PlainCells(rows) && i < |rows|
    ensures forall j :: 0 <= j < |rows[i]| ==> '|' !in rows[i][j] && '\n' !in rows[i][j]
  {
  }

  /** Row `i` of a table of plain cells, padded to the table's width, is one line. */
  lemma TableRowOneLine(rows: seq<seq<string>>, i: nat)
    requires |rows| > 0 && PlainCells(rows) && i < |rows|
    ensures '\n' !in RowLine(Pad(rows[i], Width(rows)))
  {
    PlainRow(rows, i);
    PaddedCellsPlain(rows[i], Width(rows));
    RowLineOneLine(Pad(rows[i], Width(rows)));
  }

  /** Row `i` of a table of plain cells, padded to the table's width, reads back. */
  lemma TableRowReadsBack(rows: seq<seq<string>>, i: nat)
    requires |rows| > 0 && Width(rows) >= 1 && PlainCells(rows) && i < |rows|
    ensures ReadRowLine(RowLine(Pad(rows[i], Width(rows)))) == Some(Pad(rows[i], Width(rows)))
  {
    PlainRow(rows, i);
    PaddedCellsPlain(rows[i], Width(rows));
    RowLineReadsBack(Pad(rows[i], Width(rows)));
  }

  /** The separator line is one line and reads back to `Width` cells of dashes. */
  lemma DashesReadBack(width: nat)
    requires width >= 1
    ensures ReadRowLine(RowLine(Dashes(width))) == Some(Dashes(width))
    ensures '\n' !in RowLine(Dashes(width))
  {
    var dashes := Dashes(width);
    assert '|' !in "---" && '\n' !in "---";
    RowLineReadsBack(dashes);
    RowLineOneLine(dashes);
  }

  /** Each table line of plain cells is one line of text. */
  lemma TableLinesOneLine(rows: seq<seq<string>>)
    requires |rows| > 0 && Width(rows) >= 1 && PlainCells(rows)
    ensures forall k :: 0 <= k < |TableLines(rows)| ==> '\n' !in TableLines(rows)[k]
  {
    forall k | 0 <= k < |TableLines(rows)|
      ensures '\n' !in TableLines(rows)[k]
    {
      TableLineOneLine(rows, k);
    }
  }

  lemma TableLineOneLine(rows: seq<seq<string>>, k: nat)
    requires |rows| > 0 && Width(rows) >= 1 && PlainCells(rows) && k <= |rows|
    ensures '\n' !in TableLines(rows)[k]
  {
    if k == 1 {
      DashesReadBack(Width(rows));
    } else {
      TableRowOneLine(rows, if k == 0 then 0 else k - 1);
    }
  }

  /** Each table line of plain cells reads back to the padded row, the separator to dashes. */
  lemma TableLinesRead(rows: seq<seq<string>>)
    requires |rows| > 0 && Width(rows) >= 1 && PlainCells(rows)
    ensures var lines := TableLines(rows);
            && ReadRowLine(lines[0]) == Some(Pad(rows[0], Width(rows)))
            && ReadRowLine(lines[1]) == Some(Dashes(Width(rows)))
            && forall i :: 1 <= i < |rows| ==> ReadRowLine(lines[i + 1]) == Some(Pad(rows[i], Width(rows)))
  {
    forall i | 0 <= i < |rows|
      ensures ReadRowLine(RowLine(Pad(rows[i], Width(rows)))) == Some(Pad(rows[i], Width(rows)))
    {
      TableRowReadsBack(rows, i);
    }
    DashesReadBack(Width(rows));
  }

  /** With at least one column and plain cells the table splits back into its
      lines: one per row plus the separator, each with exactly `Width` cells,
      short rows padded with empty cells, the separator all `---`. */
  lemma TableReadsBack(rows: seq<seq<string>>)
    requires |rows| > 0 && Width(rows) >= 1 && PlainCells(rows)
    ensures Split(RowsToMarkdown(rows), '\n') == TableLines(rows)
    ensures var lines := Split(RowsToMarkdown(rows), '\n');
            && |lines| == |rows| + 1
            && ReadRowLine(lines[0]) == Some(Pad(rows[0], Width(rows)))
            && ReadRowLine(lines[1]) == Some(Dashes(Width(rows)))
            && forall i :: 1 <= i < |rows| ==> ReadRowLine(lines[i + 1]) == Some(Pad(rows[i], Width(rows)))
  {
    TableLinesOneLine(rows);
    TableLinesRead(rows);
    SplitJoin(TableLines(rows), '\n');
  }

  // ---------------------------------------------------------------------------
  // `convert`
  // ---------------------------------------------------------------------------

  /** The Markdown of one block. */
  function RenderBlock(b: Block): string
  {
    match b
    case Para(p) => ParagraphToMarkdown(p)
    case Grid(t) => TableToMarkdown(t)
  }

  /** The rendered blocks, in order. */
  function RenderAll(blocks: seq<Block>): (r: seq<string>)
    ensures |r| == |blocks|
    ensures forall i :: 0 <= i < |blocks| ==> r[i] == RenderBlock(blocks[i])
  {
    seq(|blocks|, i requires 0 <= i < |blocks| => RenderBlock(blocks[i]))
  }

  /** The `lines` list of `convert`: each non-empty rendering followed by an empty line. */
  function BlockLines(mds: seq<string>): seq<string>
  {
    if |mds| == 0 then []
    else (if mds[0] != "" then [mds[0], ""] else []) + BlockLines(mds[1..])
  }

  /** `convert` without the file I/O: the joined lines, stripped, with one final line break. */
  function Convert(blocks: seq<Block>): (r: string)
    ensures |r| >= 1 && r[|r| - 1] == '\n'
    ensures |r| >= 2 ==> !IsSpace(r[|r| - 2])
  {
    Strip(Join(BlockLines(RenderAll(blocks)), "\n")) + "\n"
  }

  /** The renderings that are not empty, in order. */
  function NonEmpty(mds: seq<string>): (r: seq<string>)
    ensures |r| <= |mds|
    ensures forall i :: 0 <= i < |r| ==> r[i] != ""
    ensures forall s :: s in r ==> s in mds
    ensures IsSubsequence(r, mds)
    ensures multiset(r) == multiset(mds)["" := 0]
  {
    if |mds| == 0 then []
    else
      var rest := NonEmpty(mds[1..]);
      assert mds == [mds[0]] + mds[1..];
      if mds[0] != "" then
        assert ([mds[0]] + rest)[1..] == rest;
        [mds[0]] + rest
      else
        SubsequenceExtend(rest, mds[1..], mds[0]);
        rest
  }

  /** Each kept block contributes itself and an empty line. */
  function Interleave(mds: seq<string>): (r: seq<string>)
    ensures |r| == 2 * |mds|
  {
    if |mds| == 0 then [] else [mds[0], ""] + Interleave(mds[1..])
  }

  lemma {:induction false} BlockLinesInterleave(mds: seq<string>)
    ensures BlockLines(mds) == Interleave(NonEmpty(mds))
  {
    if |mds| > 0 {
      BlockLinesInterleave(mds[1..]);
      var rest := NonEmpty(mds[1..]);
      if mds[0] != "" {
        assert NonEmpty(mds) == [mds[0]] + rest;
        assert ([mds[0]] + rest)[1..] == rest;
        assert Interleave([mds[0]] + rest) == [mds[0], ""] + Interleave(rest);
      } else {
        assert NonEmpty(mds) == rest;
      }
    }
  }

  lemma {:induction false} InterleaveJoin(mds: seq<string>)
    requires |mds| >= 1
    ensures Join(Interleave(mds), "\n") == Join(mds, "\n\n") + "\n"
  {
    var m := mds[0];
    if |mds| == 1 {
      assert Interleave(mds) == [m, ""];
      JoinTwo(m, "", "\n");
    } else {
      var rest := Interleave(mds[1..]);
      InterleaveJoin(mds[1..]);
      assert Interleave(mds) == [m] + ([""] + rest);
      JoinCons("", rest, "\n");
      JoinCons(m, [""] + rest, "\n");
      assert mds == [m] + mds[1..];
      JoinCons(m, mds[1..], "\n\n");
    }
  }

  /** `convert` separates the non-empty blocks by one blank line; empty blocks
      leave no trace. */
  lemma ConvertJoinsWithBlankLines(blocks: seq<Block>)
    ensures Convert(blocks) == Strip(Join(NonEmpty(RenderAll(blocks)), "\n\n")) + "\n"
  {
    var mds := NonEmpty(RenderAll(blocks));
    BlockLinesInterleave(RenderAll(blocks));
    if |mds| > 0 {
      InterleaveJoin(mds);
      StripAppendSpace(Join(mds, "\n\n"), '\n');
    }
  }

  lemma {:induction false} NonEmptyAppend(a: seq<string>, b: seq<string>)
    ensures NonEmpty(a + b) == NonEmpty(a) + NonEmpty(b)
  {
    if |a| == 0 {
      assert a + b == b;
    } else {
      assert (a + b)[1..] == a[1..] + b;
      NonEmptyAppend(a[1..], b);
    }
  }

  lemma RenderAllAppend(a: seq<Block>, b: seq<Block>)
    ensures RenderAll(a + b) == RenderAll(a) + RenderAll(b)
  {
    assert forall i :: 0 <= i < |a| ==> (a + b)[i] == a[i];
    assert forall i :: |a| <= i < |a| + |b| ==> (a + b)[i] == b[i - |a|];
  }

  lemma NonEmptySkipsEmpty(x: seq<string>, y: seq<string>)
    ensures NonEmpty(x + ([""] + y)) == NonEmpty(x + y)
  {
    NonEmptyAppend(x, [""] + y);
    NonEmptyAppend([""], y);
    NonEmptyAppend(x, y);
    assert NonEmpty([""]) == [];
  }

  /** A block that renders to nothing can be dropped without changing the output. */
  lemma ConvertIgnoresEmptyBlock(before: seq<Block>, b: Block, after: seq<Block>)
    requires RenderBlock(b) == ""
    ensures Convert(before + [b] + after) == Convert(before + after)
  {
    var x, y := RenderAll(before), RenderAll(after);
    RenderAllAppend(before, [b] + after);
    RenderAllAppend([b], after);
    RenderAllAppend(before, after);
    assert before + [b] + after == before + ([b] + after);
    assert RenderAll([b]) == [""];
    assert RenderAll(before + [b] + after) == x + ([""] + y);
    NonEmptySkipsEmpty(x, y);
    ConvertJoinsWithBlankLines(before + [b] + after);
    ConvertJoinsWithBlankLines(before + after);
  }

  /** An empty document, or one whose blocks all render to nothing, is one line break. */
  lemma ConvertOfNothing(blocks: seq<Block>)
    requires forall i :: 0 <= i < |blocks| ==> RenderBlock(blocks[i]) == ""
    ensures Convert(blocks) == "\n"
  {
    var mds := RenderAll(blocks);
    assert forall i :: 0 <= i < |mds| ==> mds[i] == "";
    NoneKept(mds);
    ConvertJoinsWithBlankLines(blocks);
    assert Join(NonEmpty(mds), "\n\n") == "";
    assert Strip("") == "";
  }

  lemma {:induction false} NoneKept(mds: seq<string>)
    requires forall i :: 0 <= i < |mds| ==> mds[i] == ""
    ensures NonEmpty(mds) == []
  {
    if |mds| > 0 {
      NoneKept(mds[1..]);
    }
  }
}
