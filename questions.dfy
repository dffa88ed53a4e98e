/** The question list of the generator page (app/app/page.tsx): a projection
    of the text streamed so far, and the text copied to the clipboard. */
module Questions {
  import opened JsString

  /** The lines of `lines` that are not blank, each trimmed, in order
      (`.map(q => q.trim()).filter(q => q.length > 0)`). */
  function NonBlank(lines: seq<string>): seq<string> {
    if |lines| == 0 then []
    else
      var t := Trim(lines[0]);
      (if t == "" then [] else [t]) + NonBlank(lines[1..])
  }

  /** The questions shown for a stream buffer:
      the buffer split on '\n', trimmed, blank parts dropped. */
  function Parse(buffer: string): seq<string> {
    NonBlank(Split(buffer, "\n"))
  }

  /** What every shown question looks like. */
  predicate WellFormed(q: string) {
    q != "" && IsTrimmed(q) && '\n' !in q
  }

  lemma {:induction false} NonBlankConcat(xs: seq<string>, ys: seq<string>)
    ensures NonBlank(xs + ys) == NonBlank(xs) + NonBlank(ys)
  {
    if |xs| > 0 {
      var zs := xs + ys;
      assert zs[0] == xs[0];
      assert zs[1..] == xs[1..] + ys;
      var front := if Trim(xs[0]) == "" then [] else [Trim(xs[0])];
      assert NonBlank(zs) == front + NonBlank(zs[1..]);
      assert NonBlank(xs) == front + NonBlank(xs[1..]);
      NonBlankConcat(xs[1..], ys);
    } else {
      assert xs + ys == ys;
    }
  }

  /** Trimming a string without a newline gives a string without a newline. */
  lemma TrimKeepsNoNewline(s: string)
    requires '\n' !in s
    ensures '\n' !in Trim(s)
  {
    TrimIsSlice(s);
  }

  lemma {:induction false} NonBlankWellFormed(lines: seq<string>)
    requires forall k :: 0 <= k < |lines| ==> '\n' !in lines[k]
    ensures forall k :: 0 <= k < |NonBlank(lines)| ==> WellFormed(NonBlank(lines)[k])
  {
    if |lines| > 0 {
      TrimKeepsNoNewline(lines[0]);
      NonBlankWellFormed(lines[1..]);
    }
  }

  /** Every shown question is non-empty, already trimmed and free of newlines. */
  lemma ParseWellFormed(buffer: string)
    ensures forall k :: 0 <= k < |Parse(buffer)| ==> WellFormed(Parse(buffer)[k])
  {
    var lines := Split(buffer, "\n");
    SplitPiecesFree(buffer, "\n");
    forall k | 0 <= k < |lines| ensures '\n' !in lines[k] {
      IncludesChar(lines[k], '\n');
    }
    NonBlankWellFormed(lines);
  }

  /** A buffer holding one line shows that line trimmed, or nothing when the
      line is blank. */
  lemma ParseLine(line: string)
    requires '\n' !in line
    ensures Parse(line) == if Trim(line) == "" then [] else [Trim(line)]
  {
    SplitNoSeparator(line, '\n');
    assert Split(line, "\n") == [line];
    assert [line][1..] == [];
    assert NonBlank([]) == [];
    assert NonBlank([line]) == (if Trim(line) == "" then [] else [Trim(line)]) + NonBlank([]);
  }

  /** The questions of two parts joined by a newline are the questions of
      the first part followed by those of the second: a line the stream
      has finished is never revised by later chunks. */
  lemma ParseConcat(a: string, b: string)
    ensures Parse(a + "\n" + b) == Parse(a) + Parse(b)
  {
    SplitConcat(a, b, '\n');
    NonBlankConcat(Split(a, "\n"), Split(b, "\n"));
  }

  lemma {:induction false} NonBlankFixpoint(qs: seq<string>)
    requires forall k :: 0 <= k < |qs| ==> WellFormed(qs[k])
    ensures NonBlank(qs) == qs
  {
    if |qs| > 0 {
      TrimFixpoint(qs[0]);
      NonBlankFixpoint(qs[1..]);
      assert [qs[0]] + qs[1..] == qs;
    }
  }

  /** Rendering a question list one per line and parsing it again gives the
      same list. */
  lemma ParseJoinLines(qs: seq<string>)
    requires forall k :: 0 <= k < |qs| ==> WellFormed(qs[k])
    ensures Parse(Join(qs, "\n")) == qs
  {
    if |qs| == 0 {
      assert Split("", "\n") == [""];
    } else {
      SplitJoin(qs, "\n");
      NonBlankFixpoint(qs);
    }
  }

  /** Parsing is idempotent: the parsed list, written out one per line,
      parses to itself. */
  lemma ParseIdempotent(buffer: string)
    ensures Parse(Join(Parse(buffer), "\n")) == Parse(buffer)
  {
    ParseWellFormed(buffer);
    ParseJoinLines(Parse(buffer));
  }

  /** Two well-formed lines, with or without a final newline, show as themselves. */
  lemma TwoLines(a: string, b: string)
    requires WellFormed(a) && WellFormed(b)
    ensures Parse(a + "\n" + b) == [a, b]
    ensures Parse(a + "\n" + (b + "\n")) == [a, b]
  {
    ParseOneLine(a);
    ParseOneLine(b);
    ParseConcat(a, b);
    ParseConcat(a, b + "\n");
  }

  /** A non-blank trimmed line followed by a newline, or alone, shows as itself. */
  lemma ParseOneLine(line: string)
    requires WellFormed(line)
    ensures Parse(line) == [line] && Parse(line + "\n") == [line]
  {
    TrimFixpoint(line);
    ParseLine(line);
    ParseLine("");
    ParseConcat(line, "");
    assert line + "\n" + "" == line + "\n";
  }

  /** The list after each chunk of the stream "Q1?\n", "Q2", "?\n" (each
      buffer written as its lines and line breaks): the partial line "Q2"
      is shown, then revised once its end arrives. */
  lemma StreamScenario()
    ensures Parse("Q1?" + "\n") == ["Q1?"]
    ensures Parse("Q1?" + "\n" + "Q2") == ["Q1?", "Q2"]
    ensures Parse("Q1?" + "\n" + ("Q2?" + "\n")) == ["Q1?", "Q2?"]
  {
    WellFormedSample();
    ParseOneLine("Q1?");
    TwoLines("Q1?", "Q2");
    TwoLines("Q1?", "Q2?");
  }

  lemma WellFormedSample()
    ensures WellFormed("Q1?") && WellFormed("Q2") && WellFormed("Q2?") && WellFormed("?")
  {
  }

  /** A line `b + c` delivered in two chunks: parsing the second chunk on
      its own and appending would show the halves apart ... */
  lemma LineShownApart(a: string, b: string, c: string)
    requires WellFormed(a) && WellFormed(b) && WellFormed(c)
    ensures Parse(a + "\n" + b) + Parse(c + "\n") == [a, b, c]
  {
    TwoLines(a, b);
    ParseOneLine(c);
  }

  /** ... while parsing the whole buffer shows the line whole. */
  lemma LineShownWhole(a: string, b: string, c: string)
    requires WellFormed(a) && WellFormed(b + c)
    ensures Parse(a + "\n" + b + (c + "\n")) == [a, b + c]
  {
    var bc := b + c;
    TwoLines(a, bc);
    assert a + "\n" + b + (c + "\n") == a + "\n" + (bc + "\n");
  }

  /** The list is rebuilt from the whole buffer, not from the last chunk:
      after "Q1?\n", "Q2", "?\n", parsing the last chunk on its own and
      appending would show "Q2" and "?" apart. */
  lemma WholeBufferMatters()
    ensures Parse("Q1?" + "\n" + "Q2") + Parse("?" + "\n") != Parse("Q1?" + "\n" + "Q2" + ("?" + "\n"))
  {
    WellFormedSample();
    assert "Q2" + "?" == "Q2?";
    LineShownApart("Q1?", "Q2", "?");
    LineShownWhole("Q1?", "Q2", "?");
  }

  // ---------------------------------------------------------------------
  // Clipboard

  /** `• ` in front of a question. */
  function Bullet(q: string): string {
    "\U{2022} " + q
  }

  function Bullets(qs: seq<string>): (r: seq<string>)
    ensures |r| == |qs|
    ensures forall k :: 0 <= k < |qs| ==> r[k] == Bullet(qs[k])
  {
    seq(|qs|, k requires 0 <= k < |qs| => Bullet(qs[k]))
  }

  /** The text copied when the question card is clicked:
      `questions.map(q => `• ${q}`).join('\n\n')`. */
  function ClipboardText(qs: seq<string>): string {
    Join(Bullets(qs), "\n\n")
  }

  /** Reading the copied text back: split on blank lines, drop the bullets. */
  function ReadClipboard(text: string): seq<string> {
    var items := Split(text, "\n\n");
    seq(|items|, k requires 0 <= k < |items| => Substring(items[k], |Bullet("")|))
  }

  /** The copied text holds each question, bulleted, in order, one block per
      question (the card is shown only when there is at least one question). */
  lemma ClipboardRoundTrip(qs: seq<string>)
    requires |qs| > 0
    requires forall k :: 0 <= k < |qs| ==> '\n' !in qs[k]
    ensures Split(ClipboardText(qs), "\n\n") == Bullets(qs)
    ensures ReadClipboard(ClipboardText(qs)) == qs
  {
    var bs := Bullets(qs);
    forall k | 0 <= k < |bs| ensures "\n\n"[0] !in bs[k] {
      assert bs[k] == ['\U{2022}', ' '] + qs[k];
    }
    SplitJoin(bs, "\n\n");
    var r := ReadClipboard(ClipboardText(qs));
    forall k | 0 <= k < |qs| ensures r[k] == qs[k] {
      assert Substring(bs[k], 2) == bs[k][2..] == qs[k];
    }
  }

  /** The copy of a parsed question list, read back, is that list. */
  lemma ClipboardOfParse(buffer: string)
    requires Parse(buffer) != []
    ensures ReadClipboard(ClipboardText(Parse(buffer))) == Parse(buffer)
  {
    ParseWellFormed(buffer);
    ClipboardRoundTrip(Parse(buffer));
  }
}
