/** The report printed after the scan: a "dimensions do not match" section listing
file names, then a "Different pixels are found" section with one
`file, pixels, error` row per record. A section is printed only when its list is
non-empty. Rows are kept as their three cells: the column alignment the
tab writer adds is presentation only.
 */
module Render {
  import opened DiffParse
  import opened PairScan

  const DimHeader: string := "-- dimensions do not match --"
  const PixelHeader: string := "-- Different pixels are found --"

  /** One printed line: plain text, or a tab-separated table row. */
  datatype Line = Text(text: string) | Row(cells: seq<string>)

  function NameLines(names: seq<string>): (ls: seq<Line>)
    ensures |ls| == |names|
    ensures forall i :: 0 <= i < |names| ==> ls[i] == Text(names[i])
  {
    if |names| == 0 then [] else [Text(names[0])] + NameLines(names[1..])
  }

  function PixelRows(ps: seq<DiffPixel>): (ls: seq<Line>)
    ensures |ls| == |ps|
    ensures forall i :: 0 <= i < |ps| ==> ls[i] == Row([ps[i].file, ps[i].pixels, ps[i].error])
  {
    if |ps| == 0 then [] else [Row([ps[0].file, ps[0].pixels, ps[0].error])] + PixelRows(ps[1..])
  }

  function DimSection(dims: seq<string>): seq<Line> {
    if |dims| == 0 then [] else [Text(DimHeader)] + NameLines(dims)
  }

  function PixelSection(ps: seq<DiffPixel>): seq<Line> {
    if |ps| == 0 then [] else [Text(PixelHeader)] + PixelRows(ps)
  }

  /** The report as printed. */
  function RenderReport(rep: Report): (out: seq<Line>)
    ensures |out| == (if |rep.dims| == 0 then 0 else 1 + |rep.dims|)
                     + (if |rep.pixels| == 0 then 0 else 1 + |rep.pixels|)
    ensures out == [] <==> rep.dims == [] && rep.pixels == []
    ensures |rep.dims| > 0 ==> out[0] == Text(DimHeader)
    ensures |rep.dims| == 0 && |rep.pixels| > 0 ==> out[0] == Text(PixelHeader)
  {
    DimSection(rep.dims) + PixelSection(rep.pixels)
  }

  // ---------------------------------------------------------------------------
  // Reading a printed report back.

  /** The leading text lines up to the pixel header, and what follows them. */
  function ReadNames(ls: seq<Line>): (seq<string>, seq<Line>) {
    if |ls| > 0 && ls[0].Text? && ls[0].text != PixelHeader then
      var (names, rest) := ReadNames(ls[1..]);
      ([ls[0].text] + names, rest)
    else
      ([], ls)
  }

  /** The leading three-cell rows. */
  function ReadRows(ls: seq<Line>): seq<DiffPixel> {
    if |ls| > 0 && ls[0].Row? && |ls[0].cells| == 3 then
      [DiffPixel(ls[0].cells[0], ls[0].cells[1], ls[0].cells[2])] + ReadRows(ls[1..])
    else
      []
  }

  /** The dimension section, if the output opens with one, and what follows it. */
  function ReadDims(out: seq<Line>): (seq<string>, seq<Line>) {
    if |out| > 0 && out[0] == Text(DimHeader) then ReadNames(out[1..]) else ([], out)
  }

  /** The pixel rows, if `rest` opens with the pixel header. */
  function ReadPixels(rest: seq<Line>): seq<DiffPixel> {
    if |rest| > 0 && rest[0] == Text(PixelHeader) then ReadRows(rest[1..]) else []
  }

  function ReadReport(out: seq<Line>): Report {
    var (dims, rest) := ReadDims(out);
    Report(dims, ReadPixels(rest))
  }

  lemma {:induction false} ReadNameLines(names: seq<string>, tail: seq<Line>)
    requires forall i :: 0 <= i < |names| ==> names[i] != PixelHeader
    requires |tail| == 0 || tail[0] == Text(PixelHeader)
    ensures ReadNames(NameLines(names) + tail) == (names, tail)
    decreases |names|
  {
    if |names| > 0 {
      assert (NameLines(names) + tail)[1..] == NameLines(names[1..]) + tail;
      ReadNameLines(names[1..], tail);
      assert [names[0]] + names[1..] == names;
    } else {
      assert NameLines(names) + tail == tail;
    }
  }

  lemma {:induction false} ReadPixelRows(ps: seq<DiffPixel>)
    ensures ReadRows(PixelRows(ps)) == ps
    decreases |ps|
  {
    if |ps| > 0 {
      assert PixelRows(ps)[1..] == PixelRows(ps[1..]);
      ReadPixelRows(ps[1..]);
      assert [ps[0]] + ps[1..] == ps;
    }
  }

  lemma HeadersDiffer()
    ensures DimHeader != PixelHeader
  {
    assert DimHeader[3] == 'd' && PixelHeader[3] == 'D';
  }

  /** The pixel section reads back as its records. */
  lemma ReadPixelSection(ps: seq<DiffPixel>)
    ensures ReadPixels(PixelSection(ps)) == ps
  {
    ReadPixelRows(ps);
    if |ps| > 0 {
      assert PixelSection(ps)[1..] == PixelRows(ps);
    }
  }

  /** The dimension section reads back as its names, leaving what follows it. */
  lemma ReadDimSection(dims: seq<string>, pix: seq<Line>)
    requires forall i :: 0 <= i < |dims| ==> dims[i] != PixelHeader
    requires |pix| == 0 || pix[0] == Text(PixelHeader)
    ensures ReadDims(DimSection(dims) + pix) == (dims, pix)
  {
    if |dims| > 0 {
      var body := NameLines(dims) + pix;
      assert DimSection(dims) + pix == [Text(DimHeader)] + body;
      ReadNameLines(dims, pix);
      assert ReadNames(body) == (dims, pix);
    } else {
      HeadersDiffer();
      assert DimSection(dims) + pix == pix;
    }
  }

  /** Printing loses nothing: both lists, in order, can be read back from the
      printed lines, as long as no file name is itself the pixel-section header. */
  lemma ReadRenderedReport(rep: Report)
    requires forall i :: 0 <= i < |rep.dims| ==> rep.dims[i] != PixelHeader
    ensures ReadReport(RenderReport(rep)) == rep
  {
    var pix := PixelSection(rep.pixels);
    ReadPixelSection(rep.pixels);
    ReadDimSection(rep.dims, pix);
  }
}
