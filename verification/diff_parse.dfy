/** `newDiffPixel`: reading the pixel count and error rate out of the text the
comparison tool prints when it exits with "pixels differ".

The tool's output is expected to be a header line followed by two `label: value`
lines. The parser takes the text between the first and the second `:` of line 1
(counting from 0) as the pixel count and that of line 2 as the error rate, each
with white space trimmed. Output with fewer lines, or a line without a `:`, makes
the Go code index past the end of a slice and panic; here that is a `Fail`.
 */
module DiffParse {
  import opened Failures
  import opened GoStrings

  /** One row of the "different pixels" report: file name, pixel count, error rate,
      the last two as the tool printed them. */
  datatype DiffPixel = DiffPixel(file: string, pixels: string, error: string)

  /** The value of a `label:value` line: the text between its first `:` and the
      next `:` (or the end of the line), with white space trimmed. */
  function ColonValue(line: string): string
    requires ':' in line
  {
    TrimSpace(Before(After(line, ':'), ':'))
  }

  /** Index 1 of Go's `strings.Split(line, ":")`, trimmed. */
  function FieldAfterColon(line: string, lineIndex: nat): (r: Result<string>)
    ensures r.Ok? <==> ':' in line
    ensures r.Fail? ==> r.error == NoColon(lineIndex)
    ensures r.Ok? ==> r.value == ColonValue(line)
    ensures r.Ok? ==> Trimmed(r.value) && ':' !in r.value
  {
    var fields := Split(line, ':');
    SplitHasSecondPiece(line, ':');
    if |fields| < 2 then
      Fail(NoColon(lineIndex))
    else
      SplitSecondPiece(line, ':');
      TrimSpaceKeepsAbsent(fields[1], ':');
      Ok(TrimSpace(fields[1]))
  }

  /** Go's `newDiffPixel(fileName, out)`. */
  function NewDiffPixel(fileName: string, out: string): (r: Result<DiffPixel>)
    ensures r.Ok? <==>
              && multiset(out)['\n'] >= 2
              && ':' in Split(out, '\n')[1]
              && ':' in Split(out, '\n')[2]
    ensures multiset(out)['\n'] < 2 ==> r == Fail(OutputTooShort(multiset(out)['\n'] + 1))
    ensures r.Fail? && multiset(out)['\n'] >= 2 ==>
              r.error == (if ':' in Split(out, '\n')[1] then NoColon(2) else NoColon(1))
    ensures r.Ok? ==> r.value == DiffPixel(fileName, ColonValue(Split(out, '\n')[1]),
                                            ColonValue(Split(out, '\n')[2]))
    ensures r.Ok? ==> Trimmed(r.value.pixels) && Trimmed(r.value.error)
    ensures r.Ok? ==> ':' !in r.value.pixels && ':' !in r.value.error
  {
    var lines := Split(out, '\n');
    if |lines| < 3 then
      Fail(OutputTooShort(|lines|))
    else
      ReadFieldLines(fileName, lines[1], lines[2])
  }

  /** The record made from the pixel-count line and the error-rate line. */
  function ReadFieldLines(fileName: string, pixelsLine: string, errorLine: string): Result<DiffPixel>
  {
    var pixels :- FieldAfterColon(pixelsLine, 1);
    var error :- FieldAfterColon(errorLine, 2);
    Ok(DiffPixel(fileName, pixels, error))
  }

  /** The output the tool prints on a pixel mismatch: a header, a pixel-count line
      and an error-rate line, each `label:value`, possibly followed by more lines. */
  function ToolReport(header: string, pixelsLabel: string, pixels: string,
                      errorLabel: string, error: string, more: seq<string>): string
  {
    Join([header, pixelsLabel + ":" + pixels, errorLabel + ":" + error] + more, '\n')
  }

  /** A `label:value` line yields its value, trimmed. */
  lemma FieldOfLabelled(tag: string, value: string, lineIndex: nat)
    requires ':' !in tag && ':' !in value
    ensures FieldAfterColon(tag + ":" + value, lineIndex) == Ok(TrimSpace(value))
  {
    var line := tag + ":" + value;
    assert line == Join([tag, value], ':');
    SplitJoin([tag, value], ':');
    assert line[|tag|] == ':';
  }

  /** A line with a second `:` yields the trimmed text between the two, whatever
      follows the second one (`different pixels: 12:3` reads as `12`). */
  lemma FieldBetweenColons(tag: string, value: string, rest: string, lineIndex: nat)
    requires ':' !in tag && ':' !in value
    ensures FieldAfterColon(tag + ":" + value + ":" + rest, lineIndex) == Ok(TrimSpace(value))
  {
    var line := tag + ":" + value + ":" + rest;
    assert line == tag + [':'] + (value + [':'] + rest);
    BeforeAfterUnique(line, ':', tag, value + [':'] + rest);
    BeforeAfterUnique(value + [':'] + rest, ':', value, rest);
  }

  /** On newline-free lines, the parser reads lines 1 and 2 of their join. */
  lemma ParseLines(fileName: string, lines: seq<string>)
    requires |lines| >= 3
    requires forall i :: 0 <= i < |lines| ==> '\n' !in lines[i]
    ensures NewDiffPixel(fileName, Join(lines, '\n'))
            == ReadFieldLines(fileName, lines[1], lines[2])
  {
    SplitJoin(lines, '\n');
  }

  /** The parser recovers exactly the two values the tool printed, trimmed, whatever
      the header, the labels and the lines that follow. */
  lemma ParseToolReport(fileName: string, header: string, pixelsLabel: string, pixels: string,
                        errorLabel: string, error: string, more: seq<string>)
    requires '\n' !in header
    requires '\n' !in pixelsLabel && ':' !in pixelsLabel && '\n' !in pixels && ':' !in pixels
    requires '\n' !in errorLabel && ':' !in errorLabel && '\n' !in error && ':' !in error
    requires forall i :: 0 <= i < |more| ==> '\n' !in more[i]
    ensures NewDiffPixel(fileName, ToolReport(header, pixelsLabel, pixels, errorLabel, error, more))
            == Ok(DiffPixel(fileName, TrimSpace(pixels), TrimSpace(error)))
  {
    var pixelsLine := pixelsLabel + ":" + pixels;
    var errorLine := errorLabel + ":" + error;
    var lines := [header, pixelsLine, errorLine] + more;
    forall i | 0 <= i < |lines| ensures '\n' !in lines[i] {
      if i >= 3 {
        assert lines[i] == more[i - 3];
      }
    }
    ParseLines(fileName, lines);
    FieldOfLabelled(pixelsLabel, pixels, 1);
    FieldOfLabelled(errorLabel, error, 2);
  }

  /** Example: a header line, `pixels: 1234`, `error: 0.042`, and a final newline. */
  lemma ParseExample()
    ensures NewDiffPixel("a.png", "header\npixels: 1234\nerror: 0.042\n")
            == Ok(DiffPixel("a.png", "1234", "0.042"))
  {
    ExampleLinesFree();
    ParseFourLines("a.png", "header", "pixels: 1234", "error: 0.042", "");
    ExampleErrorLine();
    ExamplePixelsLine();
    ExampleHeaderLine();
    ExamplePixelsField();
    ExampleErrorField();
  }

  /** Four newline-free lines joined by newlines parse as their second and third line. */
  lemma ParseFourLines(fileName: string, a: string, b: string, c: string, d: string)
    requires '\n' !in a && '\n' !in b && '\n' !in c && '\n' !in d
    ensures NewDiffPixel(fileName, a + ['\n'] + (b + ['\n'] + (c + ['\n'] + d)))
            == ReadFieldLines(fileName, b, c)
  {
    var lines := [a, b, c, d];
    assert forall i :: 0 <= i < |lines| ==> '\n' !in lines[i];
    JoinFour(a, b, c, d, '\n');
    ParseLines(fileName, lines);
  }

  lemma ExampleLinesFree()
    ensures '\n' !in "header" && '\n' !in "pixels: 1234" && '\n' !in "error: 0.042" && '\n' !in ""
  {
  }

  lemma ExamplePixelsField()
    ensures FieldAfterColon("pixels: 1234", 1) == Ok("1234")
  {
    ReadPaddedField("pixels: 1234", "pixels", " 1234", " ", "1234", 1);
  }

  lemma ExampleErrorField()
    ensures FieldAfterColon("error: 0.042", 2) == Ok("0.042")
  {
    ReadPaddedField("error: 0.042", "error", " 0.042", " ", "0.042", 2);
  }

  // The example output assembled line by line, one literal step at a time.
  lemma ExampleErrorLine()
    ensures "error: 0.042" + ['\n'] + "" == "error: 0.042\n"
  {
  }

  lemma ExamplePixelsLine()
    ensures "pixels: 1234" + ['\n'] + "error: 0.042\n" == "pixels: 1234\nerror: 0.042\n"
  {
  }

  lemma ExampleHeaderLine()
    ensures "header" + ['\n'] + "pixels: 1234\nerror: 0.042\n" == "header\npixels: 1234\nerror: 0.042\n"
  {
  }

  lemma JoinFour(a: string, b: string, c: string, d: string, sep: char)
    ensures Join([a, b, c, d], sep) == a + [sep] + (b + [sep] + (c + [sep] + d))
  {
    var parts := [a, b, c, d];
    assert parts[1..] == [b, c, d] && parts[2..] == [c, d] && parts[3..] == [d];
    assert Join([c, d], sep) == c + [sep] + d;
  }

  /** A `tag:<spaces>value` line yields exactly `value` when `value` is already trimmed. */
  lemma ReadPaddedField(line: string, tag: string, field: string, pad: string, value: string, lineIndex: nat)
    requires line == tag + ":" + field && field == pad + value
    requires ':' !in tag && ':' !in field && AllSpace(pad) && Trimmed(value)
    ensures FieldAfterColon(line, lineIndex) == Ok(value)
  {
    FieldOfLabelled(tag, field, lineIndex);
    TrimSpaceOfLeftPadded(pad, value);
  }
}
