/**
 * The Markdown notes mapper of utils/notes_parser.py: a notes document and a slide
 * count become one note string per slide.
 *
 * The two regular expressions of the source are modelled line by line. A line is the
 * text between two line breaks; `\s` is read as an in-line blank (`IsBlank`) and `\d`
 * as an ASCII digit.
 */
module NotesParser {
  import opened Wrappers
  import opened Strings

  /** `w` spells "slide" in any letter case (the pattern is compiled with IGNORECASE). */
  predicate IsSlideWord(w: string) {
    Lower(w) == "slide"
  }

  // ---------------------------------------------------------------------------
  // The header pattern  ^##\s+Slide\s+(\d+)\s*$  applied to a single line
  // ---------------------------------------------------------------------------

  /** `\s+(\d+)\s*$`: blanks, then digits, then optional blanks to the end of the line. */
  function ParseNumberTail(z: string): Option<nat>
  {
    var b := Span(z, IsBlank);
    if b == 0 then None
    else
      var d := Span(z[b..], IsDigit);
      if d == 0 || !AllBlank(z[b + d..]) then None
      else
        var ds := z[b..b + d];
        assert AllDigits(ds) by {
          forall i | 0 <= i < |ds| ensures IsDigit(ds[i]) {
            assert ds[i] == z[b..][i];
          }
        }
        Some(DigitsValue(ds))
  }

  /** `Slide\s+(\d+)\s*$`. */
  function ParseSlideTail(y: string): Option<nat>
  {
    if |y| < 5 || !IsSlideWord(y[..5]) then None else ParseNumberTail(y[5..])
  }

  /** The slide number a line announces, when the whole line is a `## Slide <digits>` header. */
  function ParseHeader(line: string): Option<nat>
  {
    if |line| < 3 || line[..2] != "##" || !IsBlank(line[2]) then None
    else ParseSlideTail(line[2 + Span(line[2..], IsBlank)..])
  }

  /** The shape the header pattern describes, cut into its five parts. */
  ghost predicate HeaderShape(line: string, b1: string, w: string, b2: string, d: string, b3: string)
  {
    line == "##" + b1 + w + b2 + d + b3
    && |b1| > 0 && AllBlank(b1) && IsSlideWord(w)
    && |b2| > 0 && AllBlank(b2) && |d| > 0 && AllDigits(d) && AllBlank(b3)
  }

  lemma NumberTailComplete(b2: string, d: string, b3: string)
    requires |b2| > 0 && AllBlank(b2) && |d| > 0 && AllDigits(d) && AllBlank(b3)
    ensures ParseNumberTail(b2 + d + b3) == Some(DigitsValue(d))
  {
    var z := b2 + d + b3;
    assert z == b2 + (d + b3);
    assert (d + b3)[0] == d[0];
    SpanOfRun(b2, d + b3, IsBlank);
    assert z[|b2|..] == d + b3;
    assert b3 != [] ==> !IsDigit(b3[0]);
    SpanOfRun(d, b3, IsDigit);
    assert z[|b2| + |d|..] == b3;
    assert z[|b2|..|b2| + |d|] == d;
  }

  lemma SlideTailComplete(w: string, z: string)
    requires IsSlideWord(w)
    ensures ParseSlideTail(w + z) == ParseNumberTail(z)
  {
    assert (w + z)[..5] == w;
    assert (w + z)[5..] == z;
  }

  lemma HeaderLineComplete(b1: string, y: string)
    requires |b1| > 0 && AllBlank(b1) && (y == [] || !IsBlank(y[0]))
    ensures ParseHeader("##" + b1 + y) == ParseSlideTail(y)
  {
    var line := "##" + b1 + y;
    assert line[2..] == b1 + y;
    assert line[0] == '#' && line[1] == '#' && line[2] == b1[0];
    SpanOfRun(b1, y, IsBlank);
    assert line[2 + |b1|..] == y;
  }

  /** Every line of the header shape is recognised, with the number its digits spell. */
  lemma HeaderComplete(line: string, b1: string, w: string, b2: string, d: string, b3: string)
    requires HeaderShape(line, b1, w, b2, d, b3)
    ensures ParseHeader(line) == Some(DigitsValue(d))
  {
    var z := b2 + d + b3;
    var y := w + z;
    assert line == "##" + b1 + y;
    assert y[0] == w[0];
    HeaderLineComplete(b1, y);
    SlideTailComplete(w, z);
    NumberTailComplete(b2, d, b3);
  }

  ghost predicate NumberShape(z: string, b2: string, d: string, b3: string)
  {
    z == b2 + d + b3 && |b2| > 0 && AllBlank(b2) && |d| > 0 && AllDigits(d) && AllBlank(b3)
  }

  /** A recognised number tail is blanks, digits and blanks, and its value is that of the digits. */
  lemma NumberTailSound(z: string) returns (b2: string, d: string, b3: string)
    requires ParseNumberTail(z).Some?
    ensures NumberShape(z, b2, d, b3) && ParseNumberTail(z) == Some(DigitsValue(d))
  {
    var b := Span(z, IsBlank);
    var dl := Span(z[b..], IsDigit);
    b2, d, b3 := z[..b], z[b..b + dl], z[b + dl..];
    assert AllBlank(b2) by {
      forall i | 0 <= i < |b2| ensures IsBlank(b2[i]) { assert b2[i] == z[i]; }
    }
    assert AllDigits(d) by {
      forall i | 0 <= i < |d| ensures IsDigit(d[i]) { assert d[i] == z[b..][i]; }
    }
    assert z == b2 + d + b3;
  }

  /** A recognised line is `##`, a blank run and what the slide part recognises. */
  lemma HeaderLineSound(line: string) returns (b1: string, y: string)
    requires ParseHeader(line).Some?
    ensures line == "##" + b1 + y && |b1| > 0 && AllBlank(b1) && ParseSlideTail(y) == ParseHeader(line)
  {
    var n := Span(line[2..], IsBlank);
    BlankRun(line[2..]);
    b1, y := line[2..2 + n], line[2 + n..];
    assert line[2..][..n] == b1;
    assert line == line[..2] + b1 + y;
  }

  /** A recognised slide part is the word `slide` in some letter case and a number tail. */
  lemma SlideTailSound(y: string) returns (w: string, z: string)
    requires ParseSlideTail(y).Some?
    ensures y == w + z && IsSlideWord(w) && ParseNumberTail(z) == ParseSlideTail(y)
  {
    w, z := y[..5], y[5..];
  }

  lemma ConcatSix(a: string, b: string, c: string, d: string, e: string, f: string)
    ensures a + b + (c + (d + e + f)) == a + b + c + d + e + f
  {
  }

  /** Every recognised line has the header shape. */
  lemma HeaderSound(line: string)
    requires ParseHeader(line).Some?
    ensures exists b1, w, b2, d, b3 ::
              HeaderShape(line, b1, w, b2, d, b3) && ParseHeader(line) == Some(DigitsValue(d))
  {
    var b1, y := HeaderLineSound(line);
    var w, z := SlideTailSound(y);
    var b2, d, b3 := NumberTailSound(z);
    ConcatSix("##", b1, w, b2, d, b3);
    assert HeaderShape(line, b1, w, b2, d, b3);
  }

  /** The header written for slide `k` reads back as slide `k`. */
  lemma HeaderForSlide(k: nat)
    ensures ParseHeader("## Slide " + NatToString(k)) == Some(k)
  {
    var d := NatToString(k);
    assert "## Slide " + d == "##" + " " + ("Slide" + (" " + d + ""));
    assert Lower("Slide") == "slide";
    assert (" " + d + "")[0] == ' ';
    HeaderLineComplete(" ", "Slide" + (" " + d + ""));
    SlideTailComplete("Slide", " " + d + "");
    NumberTailComplete(" ", d, "");
  }

  /** Letter case and the kind of blank do not matter: `##\tSLIDE\t<k> ` is slide `k` too. */
  lemma HeaderForSlideAnyCase(k: nat)
    ensures ParseHeader("##\tSLIDE\t" + NatToString(k) + " ") == Some(k)
  {
    var d := NatToString(k);
    assert "##\tSLIDE\t" + d + " " == "##" + "\t" + ("SLIDE" + ("\t" + d + " "));
    assert Lower("SLIDE") == "slide";
    assert ("\t" + d + " ")[0] == '\t';
    HeaderLineComplete("\t", "SLIDE" + ("\t" + d + " "));
    SlideTailComplete("SLIDE", "\t" + d + " ");
    NumberTailComplete("\t", d, " ");
  }

  /**
   * A header line ends in its number: once trailing blanks are removed, its last
   * character is a digit. So `## Slide 3 intro` is not a header.
   */
  lemma HeaderEndsInDigit(line: string)
    requires ParseHeader(line).Some?
    ensures var r := StripRight(line); |r| > 0 && IsDigit(r[|r| - 1])
  {
    HeaderSound(line);
    var b1, w, b2, d, b3 :| HeaderShape(line, b1, w, b2, d, b3) && ParseHeader(line) == Some(DigitsValue(d));
    var x := "##" + b1 + w + b2 + d;
    assert line == x + b3;
    assert x[|x| - 1] == d[|d| - 1];
    StripRightOf(x, b3);
  }

  /** Digits followed by anything but blanks are not a number tail. */
  lemma NumberTailRejects(b: string, d: string, rest: string)
    requires |b| > 0 && AllBlank(b) && |d| > 0 && AllDigits(d)
    requires |rest| > 0 && !IsDigit(rest[0]) && !AllBlank(rest)
    ensures ParseNumberTail(b + d + rest) == None
  {
    var z := b + d + rest;
    assert z == b + (d + rest);
    assert (d + rest)[0] == d[0];
    SpanOfRun(b, d + rest, IsBlank);
    assert z[|b|..] == d + rest;
    SpanOfRun(d, rest, IsDigit);
    assert z[|b| + |d|..] == rest;
  }

  // ---------------------------------------------------------------------------
  // The warning pattern  ^##\s+(.*)$  and the title test  (?i)^Slide\s+\d+$
  // ---------------------------------------------------------------------------

  /** The stripped title of a `##` line (`##` followed by a blank), if the line is one. */
  function SectionTitle(line: string): Option<string>
  {
    if |line| >= 3 && line[..2] == "##" && IsBlank(line[2]) then Some(Strip(line[2..])) else None
  }

  /** `\s+\d+$` on a stripped title. */
  predicate IsNumberTitle(z: string)
  {
    var b := Span(z, IsBlank);
    0 < b < |z| && AllDigits(z[b..])
  }

  /** `re.match(r"(?i)^Slide\s+\d+$", title)`. */
  predicate IsSlideTitle(title: string)
  {
    |title| >= 5 && IsSlideWord(title[..5]) && IsNumberTitle(title[5..])
  }

  /** The message printed for a `##` line whose title is not `Slide <digits>`. */
  function WarningMessage(title: string): string
  {
    "Warning: unexpected section '## " + title + "' found in markdown and ignored"
  }

  /** Removing trailing whitespace from a text that ends in a non-space run leaves that run. */
  lemma {:induction false} StripRightOf(x: string, s: string)
    requires x == [] || !IsSpace(x[|x| - 1])
    requires forall i :: 0 <= i < |s| ==> IsSpace(s[i])
    ensures StripRight(x + s) == x
  {
    if s == [] {
      assert x + s == x;
    } else {
      assert (x + s)[..|x + s| - 1] == x + s[..|s| - 1];
      StripRightOf(x, s[..|s| - 1]);
    }
  }

  /** Right-stripping commutes with dropping a prefix that the strip keeps. */
  lemma {:induction false} StripRightSuffix(y: string, k: nat)
    requires k <= |StripRight(y)|
    ensures StripRight(y[k..]) == StripRight(y)[k..]
    decreases |y|
  {
    if y == [] || !IsSpace(y[|y| - 1]) {
      assert StripRight(y) == y;
      if k < |y| {
        assert y[k..][|y[k..]| - 1] == y[|y| - 1];
      }
    } else {
      var y' := y[..|y| - 1];
      assert StripRight(y) == StripRight(y');
      StripRightSuffix(y', k);
      assert y[k..][..|y[k..]| - 1] == y'[k..];
      assert y[k..][|y[k..]| - 1] == y[|y| - 1];
    }
  }

  lemma NumberTailToTitle(z: string)
    requires ParseNumberTail(z).Some?
    ensures IsNumberTitle(StripRight(z))
  {
    var b2, d, b3 := NumberTailSound(z);
    var x := b2 + d;
    assert z == x + b3;
    assert x[|x| - 1] == d[|d| - 1];
    StripRightOf(x, b3);
    assert d[0] == x[|b2|];
    SpanOfRun(b2, d, IsBlank);
    assert x[|b2|..] == d;
  }

  lemma TitleToNumberTail(z: string)
    requires '\n' !in z
    requires IsNumberTitle(StripRight(z))
    ensures ParseNumberTail(z).Some?
  {
    var t := StripRight(z);
    var b := Span(t, IsBlank);
    var b2, d, b3 := t[..b], t[b..], z[|t|..];
    assert AllBlank(b2) by {
      forall i | 0 <= i < |b2| ensures IsBlank(b2[i]) { assert b2[i] == t[i]; }
    }
    assert AllBlank(b3) by {
      forall i | 0 <= i < |b3| ensures IsBlank(b3[i]) { assert b3[i] == z[|t| + i]; }
    }
    assert z == t + b3;
    assert t == b2 + d;
    NumberTailComplete(b2, d, b3);
  }

  /** On one line, the number part of a header and of a title agree. */
  lemma NumberTailIffTitle(z: string)
    requires '\n' !in z
    ensures ParseNumberTail(z).Some? <==> IsNumberTitle(StripRight(z))
  {
    if ParseNumberTail(z).Some? {
      NumberTailToTitle(z);
    }
    if IsNumberTitle(StripRight(z)) {
      TitleToNumberTail(z);
    }
  }

  /** On one line, the `Slide` part of a header and of a title agree. */
  lemma SlideTailIffTitle(y: string)
    requires '\n' !in y
    ensures ParseSlideTail(y).Some? <==> IsSlideTitle(StripRight(y))
  {
    var t := StripRight(y);
    if |t| >= 5 {
      assert t[..5] == y[..5];
      StripRightSuffix(y, 5);
      NumberTailIffTitle(y[5..]);
    } else if |y| >= 5 {
      assert IsSpace(y[4]);
      assert Lower(y[..5])[4] == LowerChar(y[4]);
    }
  }

  /**
   * A `##` line is warned about exactly when it is not a slide header: the warning
   * scan and the header pattern split the `##` lines between them.
   */
  lemma WarningIffNotHeader(line: string)
    requires '\n' !in line
    requires SectionTitle(line).Some?
    ensures IsSlideTitle(SectionTitle(line).value) <==> ParseHeader(line).Some?
  {
    var rest := line[2..];
    var a := Span(rest, IsBlank);
    assert '\n' !in rest;
    SpanOnLine(rest);
    var y := rest[a..];
    assert '\n' !in y;
    assert SectionTitle(line).value == StripRight(y);
    assert ParseHeader(line) == ParseSlideTail(y);
    SlideTailIffTitle(y);
  }

  /** Within one line, the whitespace `strip` removes is the blank run `\s` matches. */
  lemma {:induction false} SpanOnLine(s: string)
    requires '\n' !in s
    ensures Span(s, IsSpace) == Span(s, IsBlank)
  {
    if s != [] {
      assert s == [s[0]] + s[1..];
      assert '\n' !in s[1..];
      SpanOnLine(s[1..]);
    }
  }

  // ---------------------------------------------------------------------------
  // Lines of a document and the header matches in it
  // ---------------------------------------------------------------------------

  /** `^` under MULTILINE: the start of the text or the position after a line break. */
  predicate IsLineStart(t: string, p: nat)
  {
    p <= |t| && (p == 0 || t[p - 1] == '\n')
  }

  /** `$` under MULTILINE: the first line break at or after `p`, or the end of the text. */
  function LineEnd(t: string, p: nat): (e: nat)
    requires p <= |t|
    ensures p <= e <= |t|
    decreases |t| - p
  {
    if p == |t| || t[p] == '\n' then p else LineEnd(t, p + 1)
  }

  /** A line ends at a line break or at the end of the text; after the break a new line starts. */
  lemma {:induction false} LineEndAtBreak(t: string, p: nat)
    requires p <= |t|
    ensures LineEnd(t, p) == |t| || t[LineEnd(t, p)] == '\n'
    ensures LineEnd(t, p) < |t| ==> IsLineStart(t, LineEnd(t, p) + 1)
    decreases |t| - p
  {
    if p < |t| && t[p] != '\n' {
      LineEndAtBreak(t, p + 1);
    }
  }

  /** No line break lies between a position and the end of its line. */
  lemma {:induction false} LineEndNoBreak(t: string, p: nat, q: nat)
    requires p <= |t| && p <= q < LineEnd(t, p)
    ensures t[q] != '\n'
    decreases |t| - p
  {
    if q > p {
      LineEndNoBreak(t, p + 1, q);
    }
  }

  /** The line ends at the latest at the next line break. */
  lemma {:induction false} LineEndBefore(t: string, p: nat, q: nat)
    requires p <= q < |t| && t[q] == '\n'
    ensures LineEnd(t, p) <= q
    decreases q - p
  {
    if p < q && t[p] != '\n' {
      LineEndBefore(t, p + 1, q);
    }
  }

  /** The line that starts at `p`, without its line break. */
  function LineAt(t: string, p: nat): string
    requires p <= |t|
  {
    t[p..LineEnd(t, p)]
  }

  /** A line holds no line break, so the single-line facts about headers and titles apply to it. */
  lemma LineAtNoBreak(t: string, p: nat)
    requires p <= |t|
    ensures '\n' !in LineAt(t, p)
  {
    var e := LineEnd(t, p);
    forall i | 0 <= i < e - p
      ensures LineAt(t, p)[i] != '\n'
    {
      LineEndNoBreak(t, p, p + i);
    }
  }

  /** A line of the text: its first position and the position of its `$`. */
  datatype Line = Line(start: nat, stop: nat)

  /** The number of lines that start at or after the line start `p`. */
  function LineCountFrom(t: string, p: nat): (n: nat)
    requires IsLineStart(t, p)
    ensures n > 0
    decreases |t| - p
  {
    var e := LineEnd(t, p);
    LineEndAtBreak(t, p);
    if e < |t| then 1 + LineCountFrom(t, e + 1) else 1
  }

  /** The start of the `k`th line (counting from 0) at or after the line start `p`. */
  function LineStartFrom(t: string, p: nat, k: nat): nat
    requires IsLineStart(t, p) && k < LineCountFrom(t, p)
    decreases |t| - p
  {
    var e := LineEnd(t, p);
    LineEndAtBreak(t, p);
    if k == 0 then p else LineStartFrom(t, e + 1, k - 1)
  }

  /** Counting lines: the line at `p`, then those after its break. */
  lemma LineCountStep(t: string, p: nat, e: nat)
    requires IsLineStart(t, p) && e == LineEnd(t, p)
    ensures e < |t| ==> IsLineStart(t, e + 1) && LineCountFrom(t, p) == 1 + LineCountFrom(t, e + 1)
    ensures e == |t| ==> LineCountFrom(t, p) == 1
  {
    LineEndAtBreak(t, p);
  }

  /** A later line from `p` is a line from after the break that ends the line at `p`. */
  lemma LineStartStep(t: string, p: nat, e: nat, k: nat)
    requires IsLineStart(t, p) && e == LineEnd(t, p) && 0 < k < LineCountFrom(t, p)
    ensures e < |t| && IsLineStart(t, e + 1) && k - 1 < LineCountFrom(t, e + 1)
    ensures LineStartFrom(t, p, k) == LineStartFrom(t, e + 1, k - 1)
  {
    LineEndAtBreak(t, p);
  }

  /** Every line counted from `p` starts a line, at or after `p`. */
  lemma {:induction false} LineStartSound(t: string, p: nat, k: nat)
    requires IsLineStart(t, p) && k < LineCountFrom(t, p)
    ensures IsLineStart(t, LineStartFrom(t, p, k)) && p <= LineStartFrom(t, p, k)
    decreases |t| - p
  {
    if k > 0 {
      var e := LineEnd(t, p);
      LineStartStep(t, p, e, k);
      LineStartSound(t, e + 1, k - 1);
    }
  }

  /** Each line after the first starts right after the break that ends the line before it. */
  lemma {:induction false} LineStartNext(t: string, p: nat, k: nat)
    requires IsLineStart(t, p) && k + 1 < LineCountFrom(t, p)
    ensures LineStartFrom(t, p, k) <= |t| && LineStartFrom(t, p, k + 1) == LineEnd(t, LineStartFrom(t, p, k)) + 1
    decreases |t| - p
  {
    var e := LineEnd(t, p);
    LineStartStep(t, p, e, k + 1);
    if k > 0 {
      LineStartStep(t, p, e, k);
      LineStartNext(t, e + 1, k - 1);
    }
  }

  /** Every line start at or after `p` is one of the lines counted from `p`. */
  lemma {:induction false} LineStartComplete(t: string, p: nat, q: nat) returns (k: nat)
    requires IsLineStart(t, p) && IsLineStart(t, q) && p <= q
    ensures k < LineCountFrom(t, p) && LineStartFrom(t, p, k) == q
    decreases |t| - p
  {
    if q == p {
      k := 0;
    } else {
      var e := LineEnd(t, p);
      LineEndBefore(t, p, q - 1);
      LineCountStep(t, p, e);
      var j := LineStartComplete(t, e + 1, q);
      k := j + 1;
      LineStartStep(t, p, e, k);
    }
  }

  /** Lines lie in the text, in document order, each ending before the next starts. */
  predicate LinesOrdered(t: string, ls: seq<Line>)
  {
    (forall i :: 0 <= i < |ls| ==> ls[i].start <= ls[i].stop <= |t|)
    && (forall i, j :: 0 <= i < j < |ls| ==> ls[i].stop < ls[j].start)
  }

  /** Lines that each start right after the previous one's end are in document order. */
  lemma {:induction false} ChainBefore(ls: seq<Line>, i: nat, j: nat)
    requires forall k :: 0 <= k < |ls| ==> ls[k].start <= ls[k].stop
    requires forall k :: 0 <= k < |ls| - 1 ==> ls[k + 1].start == ls[k].stop + 1
    requires i < j < |ls|
    ensures ls[i].stop < ls[j].start
    decreases j
  {
    if i + 1 < j {
      ChainBefore(ls, i, j - 1);
      assert ls[j - 1].start <= ls[j - 1].stop;
      assert ls[j].start == ls[j - 1].stop + 1;
    }
  }

  /** The lines of the whole text, in order. */
  function Lines(t: string): (ls: seq<Line>)
    ensures |ls| == LineCountFrom(t, 0)
    ensures forall k :: 0 <= k < |ls| ==> ls[k].start == LineStartFrom(t, 0, k) && IsLineStart(t, ls[k].start)
    ensures forall k :: 0 <= k < |ls| ==> ls[k].start <= |t| && ls[k].stop == LineEnd(t, ls[k].start)
  {
    LineStartsSound(t);
    seq(LineCountFrom(t, 0), k requires 0 <= k < LineCountFrom(t, 0) =>
      var s := LineStartFrom(t, 0, k);
      Line(s, LineEnd(t, s)))
  }

  /** Every counted line of the text starts a line. */
  lemma LineStartsSound(t: string)
    ensures forall k :: 0 <= k < LineCountFrom(t, 0) ==> IsLineStart(t, LineStartFrom(t, 0, k))
  {
    forall k | 0 <= k < LineCountFrom(t, 0)
      ensures IsLineStart(t, LineStartFrom(t, 0, k))
    {
      LineStartSound(t, 0, k);
    }
  }

  /** The lines of the text are in document order. */
  lemma LinesInOrder(t: string)
    ensures LinesOrdered(t, Lines(t))
  {
    var ls := Lines(t);
    forall k | 0 <= k < |ls| - 1
      ensures ls[k + 1].start == ls[k].stop + 1
    {
      LineStartNext(t, 0, k);
    }
    forall i, j | 0 <= i < j < |ls|
      ensures ls[i].stop < ls[j].start
    {
      ChainBefore(ls, i, j);
    }
  }

  /**
   * One match of the header pattern, as `re.Match` gives it: `start()`, `end()` and
   * the slide number `int(group(1))`.
   */
  datatype Match = Match(start: nat, stop: nat, number: nat)

  /** Matches lie in the text, in document order, and do not overlap. */
  predicate Ordered(t: string, ms: seq<Match>)
  {
    (forall i :: 0 <= i < |ms| ==> ms[i].start <= ms[i].stop <= |t|)
    && (forall i, j :: 0 <= i < j < |ms| ==> ms[i].stop < ms[j].start)
  }

  /**
   * The matches among the lines `ls[k..]`, in order: `header(q)` says whether the line
   * starting at `q` is a header, and which slide number it announces.
   */
  function Select(ls: seq<Line>, header: nat -> Option<nat>, k: nat): seq<Match>
    requires k <= |ls|
    decreases |ls| - k
  {
    if k == |ls| then []
    else
      var rest := Select(ls, header, k + 1);
      match header(ls[k].start)
      case Some(n) => [Match(ls[k].start, ls[k].stop, n)] + rest
      case None => rest
  }

  /** Every selected match is a line of `ls[k..]` that `header` accepts, with the number it reports. */
  lemma {:induction false} SelectSound(ls: seq<Line>, header: nat -> Option<nat>, k: nat, i: nat) returns (j: nat)
    requires k <= |ls| && i < |Select(ls, header, k)|
    ensures k <= j < |ls| && header(ls[j].start).Some?
    ensures Select(ls, header, k)[i] == Match(ls[j].start, ls[j].stop, header(ls[j].start).value)
    decreases |ls| - k
  {
    var rest := Select(ls, header, k + 1);
    if header(ls[k].start).Some? {
      var m := Match(ls[k].start, ls[k].stop, header(ls[k].start).value);
      assert Select(ls, header, k) == [m] + rest;
      if i == 0 {
        j := k;
      } else {
        assert Select(ls, header, k)[i] == rest[i - 1];
        j := SelectSound(ls, header, k + 1, i - 1);
      }
    } else {
      j := SelectSound(ls, header, k + 1, i);
    }
  }

  /** Every line of `ls[k..]` that `header` accepts starts one of the selected matches. */
  lemma {:induction false} SelectComplete(ls: seq<Line>, header: nat -> Option<nat>, k: nat, j: nat) returns (i: nat)
    requires k <= j < |ls| && header(ls[j].start).Some?
    ensures i < |Select(ls, header, k)| && Select(ls, header, k)[i].start == ls[j].start
    decreases |ls| - k
  {
    var rest := Select(ls, header, k + 1);
    var here := if header(ls[k].start).Some? then [Match(ls[k].start, ls[k].stop, header(ls[k].start).value)] else [];
    assert Select(ls, header, k) == here + rest;
    if j == k {
      i := 0;
    } else {
      var i' := SelectComplete(ls, header, k + 1, j);
      i := |here| + i';
      assert Select(ls, header, k)[i] == rest[i'];
    }
  }

  /** Matches selected from ordered lines are ordered and start no earlier than `ls[k]`. */
  lemma {:induction false} SelectOrdered(t: string, ls: seq<Line>, header: nat -> Option<nat>, k: nat)
    requires k <= |ls| && LinesOrdered(t, ls)
    ensures Ordered(t, Select(ls, header, k))
    ensures k < |ls| ==> forall i :: 0 <= i < |Select(ls, header, k)| ==> ls[k].start <= Select(ls, header, k)[i].start
    decreases |ls| - k
  {
    if k < |ls| {
      SelectOrdered(t, ls, header, k + 1);
      var rest := Select(ls, header, k + 1);
      assert forall i :: 0 <= i < |rest| ==> ls[k].stop < rest[i].start by {
        if k + 1 < |ls| {
          assert ls[k].stop < ls[k + 1].start;
        }
      }
      if header(ls[k].start).Some? {
        ConsMatch(t, Match(ls[k].start, ls[k].stop, header(ls[k].start).value), rest);
      }
    }
  }

  /** A match put in front of later, ordered matches keeps them ordered. */
  lemma ConsMatch(t: string, m: Match, rest: seq<Match>)
    requires m.start <= m.stop <= |t| && Ordered(t, rest)
    requires forall i :: 0 <= i < |rest| ==> m.stop < rest[i].start
    ensures Ordered(t, [m] + rest)
    ensures forall i :: 0 <= i < |[m] + rest| ==> m.start <= ([m] + rest)[i].start
  {
    var ms := [m] + rest;
    forall i | 0 < i < |ms|
      ensures ms[i] == rest[i - 1]
    {
    }
  }

  /** The header pattern applied to the line starting at each position of `t`. */
  function HeaderAt(t: string): nat -> Option<nat>
  {
    (q: nat) => if q <= |t| then ParseHeader(LineAt(t, q)) else None
  }

  /** `list(header_re.finditer(md_text))`. */
  function Matches(t: string): (ms: seq<Match>)
    ensures Ordered(t, ms)
  {
    LinesInOrder(t);
    SelectOrdered(t, Lines(t), HeaderAt(t), 0);
    Select(Lines(t), HeaderAt(t), 0)
  }

  function Starts(ms: seq<Match>): set<nat>
  {
    set i | 0 <= i < |ms| :: ms[i].start
  }

  /** Every match is a whole header line and carries the slide number that line announces. */
  lemma MatchIsHeaderLine(t: string, i: nat)
    requires i < |Matches(t)|
    ensures IsLineStart(t, Matches(t)[i].start) && Matches(t)[i].stop == LineEnd(t, Matches(t)[i].start)
    ensures ParseHeader(LineAt(t, Matches(t)[i].start)) == Some(Matches(t)[i].number)
  {
    var j := SelectSound(Lines(t), HeaderAt(t), 0, i);
    LineStartSound(t, 0, j);
  }

  /** The matches are exactly the header lines of the text. */
  lemma MatchesAreHeaderLines(t: string, q: nat)
    requires IsLineStart(t, q)
    ensures ParseHeader(LineAt(t, q)).Some? <==> q in Starts(Matches(t))
  {
    assert HeaderAt(t)(q) == ParseHeader(LineAt(t, q));
    if ParseHeader(LineAt(t, q)).Some? {
      var k := LineStartComplete(t, 0, q);
      var i := SelectComplete(Lines(t), HeaderAt(t), 0, k);
    }
    if q in Starts(Matches(t)) {
      var i :| 0 <= i < |Matches(t)| && Matches(t)[i].start == q;
      MatchIsHeaderLine(t, i);
    }
  }

  // ---------------------------------------------------------------------------
  // Sections and the notes list
  // ---------------------------------------------------------------------------

  /**
   * The stripped text of the `i`th match's section: from the end of its header to the
   * start of the next header match, or to the end of the text.
   */
  function Section(t: string, ms: seq<Match>, i: nat): string
    requires Ordered(t, ms) && i < |ms|
  {
    Strip(t[ms[i].stop..if i + 1 < |ms| then ms[i + 1].start else |t|])
  }

  /** The index of the last of the first `n` matches that is numbered `k`, if there is one. */
  function LastFor(ms: seq<Match>, n: nat, k: nat): (r: Option<nat>)
    requires n <= |ms|
    ensures r.Some? ==> r.value < n && ms[r.value].number == k
                        && forall j :: r.value < j < n ==> ms[j].number != k
    ensures r.None? ==> forall j :: 0 <= j < n ==> ms[j].number != k
  {
    if n == 0 then None
    else if ms[n - 1].number == k then Some(n - 1)
    else LastFor(ms, n - 1, k)
  }

  /** The note for slide `k` after the first `n` matches have been processed. */
  function NoteAmong(t: string, ms: seq<Match>, n: nat, k: nat): string
    requires Ordered(t, ms) && n <= |ms|
  {
    match LastFor(ms, n, k)
    case None => ""
    case Some(j) => Section(t, ms, j)
  }

  /** Processing match `i` replaces the note of its slide by its section and keeps the others. */
  lemma NoteAmongStep(t: string, ms: seq<Match>, i: nat, k: nat)
    requires Ordered(t, ms) && i < |ms|
    ensures NoteAmong(t, ms, i + 1, k) == if ms[i].number == k then Section(t, ms, i) else NoteAmong(t, ms, i, k)
  {
  }

  /**
   * The note for slide `k` (1-based): the section of the last `## Slide k` header, or
   * the empty string when the text has no such header.
   */
  function Note(t: string, k: nat): string
  {
    var ms := Matches(t);
    NoteAmong(t, ms, |ms|, k)
  }

  /** Last write wins: the note of slide `k` is the section of the last header numbered `k`. */
  lemma LastHeaderWins(t: string, k: nat, i: nat)
    requires i < |Matches(t)| && Matches(t)[i].number == k
    requires forall j :: i < j < |Matches(t)| ==> Matches(t)[j].number != k
    ensures Note(t, k) == Section(t, Matches(t), i)
  {
  }

  /** A slide that no header names gets the empty note. */
  lemma NoHeaderNoNote(t: string, k: nat)
    requires forall j :: 0 <= j < |Matches(t)| ==> Matches(t)[j].number != k
    ensures Note(t, k) == ""
  {
  }

  /**
   * A section holds no slide header: every line that starts after the `i`th header and
   * before the next one (or the end of the text) is not a header line. Other `##` lines
   * may lie inside it and are part of its text.
   */
  lemma NoHeaderInsideSection(t: string, i: nat, q: nat)
    requires i < |Matches(t)| && IsLineStart(t, q)
    requires Matches(t)[i].start < q && (i + 1 < |Matches(t)| ==> q < Matches(t)[i + 1].start)
    ensures ParseHeader(LineAt(t, q)).None?
  {
    var ms := Matches(t);
    assert q !in Starts(ms);
    MatchesAreHeaderLines(t, q);
  }

  /** `len([""] * slide_count)`. */
  function EntryCount(slideCount: int): nat
  {
    if slideCount < 0 then 0 else slideCount
  }

  /** The concatenation of `each(line)` over the lines at or after the line start `p`, in order. */
  function PerLine(t: string, p: nat, each: string -> seq<string>): seq<string>
    requires IsLineStart(t, p)
    decreases |t| - p
  {
    var e := LineEnd(t, p);
    LineEndAtBreak(t, p);
    if e < |t| then each(t[p..e]) + PerLine(t, e + 1, each) else each(t[p..e])
  }

  /** One step of a line scan: the current line's part, then those of the lines after it. */
  lemma PerLineStep(t: string, p: nat, e: nat, each: string -> seq<string>)
    requires IsLineStart(t, p) && e == LineEnd(t, p)
    ensures e < |t| ==> IsLineStart(t, e + 1)
    ensures e < |t| ==> PerLine(t, p, each) == each(t[p..e]) + PerLine(t, e + 1, each)
    ensures e == |t| ==> PerLine(t, p, each) == each(t[p..e])
  {
    LineEndAtBreak(t, p);
  }

  lemma ConcatAssoc<T>(a: seq<T>, b: seq<T>, c: seq<T>)
    ensures (a + b) + c == a + (b + c)
  {
  }

  /** The warning a single line produces: one for a `##` line whose title is not `Slide <digits>`. */
  function LineWarning(line: string): (w: seq<string>)
    ensures |w| <= 1
  {
    match SectionTitle(line)
    case Some(title) => if IsSlideTitle(title) then [] else [WarningMessage(title)]
    case None => []
  }

  /** The warnings printed for a document, in line order. */
  function Warnings(t: string): seq<string>
  {
    PerLine(t, 0, LineWarning)
  }

  /** In a document, a `##` line draws a warning exactly when it is not a header match. */
  lemma WarnedIffNotMatched(t: string, q: nat)
    requires IsLineStart(t, q) && SectionTitle(LineAt(t, q)).Some?
    ensures LineWarning(LineAt(t, q)) != [] <==> q !in Starts(Matches(t))
  {
    LineAtNoBreak(t, q);
    WarningIffNotHeader(LineAt(t, q));
    MatchesAreHeaderLines(t, q);
  }

  /**
   * `parse_notes_md`: the notes list and the warnings printed on the way. Entry `k`
   * holds the section of the last `## Slide k+1` header, or "" if there is none.
   */
  method ParseNotesMd(mdText: string, slideCount: int) returns (notes: seq<string>, warnings: seq<string>)
    ensures |notes| == EntryCount(slideCount)
    ensures forall k :: 0 <= k < |notes| ==> notes[k] == Note(mdText, k + 1)
    ensures warnings == Warnings(mdText)
  {
    notes := CollectNotes(mdText, Matches(mdText), slideCount);
    warnings := ScanLines(mdText, LineWarning);
  }

  /**
   * The match loop of `parse_notes_md`: each match in turn writes its section into the
   * entry of its slide, when that slide exists.
   */
  method CollectNotes(mdText: string, matches: seq<Match>, slideCount: int) returns (notes: seq<string>)
    requires Ordered(mdText, matches)
    ensures |notes| == EntryCount(slideCount)
    ensures forall k :: 0 <= k < |notes| ==> notes[k] == NoteAmong(mdText, matches, |matches|, k + 1)
  {
    var n := EntryCount(slideCount);
    notes := seq(n, _ => "");
    for i := 0 to |matches|
      invariant |notes| == n
      invariant forall k :: 0 <= k < n ==> notes[k] == NoteAmong(mdText, matches, i, k + 1)
    {
      var m := matches[i];
      var start := m.stop;
      var end := if i + 1 < |matches| then matches[i + 1].start else |mdText|;
      var idx := m.number - 1;
      var sectionText := Strip(mdText[start..end]);
      assert sectionText == Section(mdText, matches, i);
      ghost var before := notes;
      if 0 <= idx < slideCount {
        notes := notes[idx := sectionText];
      }
      NotesStep(mdText, matches, i, slideCount, before, notes);
    }
  }

  /** One pass of the match loop keeps every entry equal to the note of its slide so far. */
  lemma NotesStep(t: string, ms: seq<Match>, i: nat, slideCount: int, before: seq<string>, after: seq<string>)
    requires Ordered(t, ms) && i < |ms| && |before| == EntryCount(slideCount)
    requires forall k :: 0 <= k < |before| ==> before[k] == NoteAmong(t, ms, i, k + 1)
    requires after == if 0 <= ms[i].number - 1 < slideCount then before[ms[i].number - 1 := Section(t, ms, i)] else before
    ensures |after| == |before|
    ensures forall k :: 0 <= k < |after| ==> after[k] == NoteAmong(t, ms, i + 1, k + 1)
  {
    forall k | 0 <= k < |after|
      ensures after[k] == NoteAmong(t, ms, i + 1, k + 1)
    {
      NoteStepAt(t, ms, i, slideCount, before, after, k);
    }
  }

  /** The step of `NotesStep` for the entry of slide `k + 1`. */
  lemma NoteStepAt(t: string, ms: seq<Match>, i: nat, slideCount: int, before: seq<string>, after: seq<string>, k: nat)
    requires Ordered(t, ms) && i < |ms| && |before| == EntryCount(slideCount) && k < |before|
    requires before[k] == NoteAmong(t, ms, i, k + 1)
    requires after == if 0 <= ms[i].number - 1 < slideCount then before[ms[i].number - 1 := Section(t, ms, i)] else before
    ensures after[k] == NoteAmong(t, ms, i + 1, k + 1)
  {
    NoteAmongStep(t, ms, i, k + 1);
    if 0 <= ms[i].number - 1 < slideCount && k == ms[i].number - 1 {
      assert after[k] == Section(t, ms, i);
    } else {
      assert after[k] == before[k];
    }
  }

  /**
   * The warning loop of `parse_notes_md`, line by line: `each` is the per-line check
   * (`LineWarning`), one message per `##` line whose title is not `Slide <digits>`.
   */
  method ScanLines(mdText: string, each: string -> seq<string>) returns (out: seq<string>)
    ensures out == PerLine(mdText, 0, each)
  {
    out := [];
    var p := 0;
    var scanning := true;
    while scanning
      invariant IsLineStart(mdText, p)
      invariant scanning ==> out + PerLine(mdText, p, each) == PerLine(mdText, 0, each)
      invariant !scanning ==> out == PerLine(mdText, 0, each)
      decreases |mdText| - p, scanning
    {
      var e := LineEnd(mdText, p);
      var found := each(mdText[p..e]);
      ScanStep(mdText, p, e, out, each);
      out := out + found;
      if e < |mdText| {
        p := e + 1;
      } else {
        scanning := false;
      }
    }
  }

  /** A scan that has collected `out` before the line at `p` collects that line's part next. */
  lemma ScanStep(t: string, p: nat, e: nat, out: seq<string>, each: string -> seq<string>)
    requires IsLineStart(t, p) && e == LineEnd(t, p)
    requires out + PerLine(t, p, each) == PerLine(t, 0, each)
    ensures e < |t| ==> IsLineStart(t, e + 1)
    ensures e < |t| ==> (out + each(t[p..e])) + PerLine(t, e + 1, each) == PerLine(t, 0, each)
    ensures e == |t| ==> out + each(t[p..e]) == PerLine(t, 0, each)
  {
    PerLineStep(t, p, e, each);
    if e < |t| {
      ConcatAssoc(out, each(t[p..e]), PerLine(t, e + 1, each));
    }
  }

  /** The error `parse_notes` raises. */
  datatype NotesError =
    | UnsupportedFormat  // ValueError: the path does not end in `.md`
    | Unreadable         // the file could not be opened or read

  /** `path.lower().endswith('.md')`. */
  predicate HasMarkdownExtension(path: string)
  {
    |path| >= 3 && Lower(path)[|path| - 3..] == ".md"
  }

  /** The extension test accepts exactly `.md`, `.MD`, `.Md` and `.mD` at the end. */
  lemma MarkdownExtensionCases(path: string)
    ensures HasMarkdownExtension(path) <==>
              |path| >= 3 && path[|path| - 3] == '.'
              && (path[|path| - 2] == 'm' || path[|path| - 2] == 'M')
              && (path[|path| - 1] == 'd' || path[|path| - 1] == 'D')
  {
    if |path| >= 3 {
      var l := Lower(path)[|path| - 3..];
      assert l == [LowerChar(path[|path| - 3]), LowerChar(path[|path| - 2]), LowerChar(path[|path| - 1])];
    }
  }

  /**
   * `parse_notes`: the extension is checked before anything is read; `contents` is
   * the file's text as `f.read()` returns it in text mode (`\r\n` and `\r` already
   * turned into `\n`), or None when it cannot be read.
   */
  method ParseNotes(path: string, contents: Option<string>, slideCount: int)
    returns (r: Result<seq<string>, NotesError>, warnings: seq<string>)
    ensures !HasMarkdownExtension(path) ==> r == Err(UnsupportedFormat) && warnings == []
    ensures HasMarkdownExtension(path) && contents.None? ==> r == Err(Unreadable) && warnings == []
    ensures HasMarkdownExtension(path) && contents.Some? ==>
              r.Ok? && |r.value| == EntryCount(slideCount)
              && (forall k :: 0 <= k < |r.value| ==> r.value[k] == Note(contents.value, k + 1))
              && warnings == Warnings(contents.value)
  {
    if !HasMarkdownExtension(path) {
      return Err(UnsupportedFormat), [];
    }
    if contents.None? {
      return Err(Unreadable), [];
    }
    var notes;
    notes, warnings := ParseNotesMd(contents.value, slideCount);
    r := Ok(notes);
  }
}
