/**
 * The command line of main.py: which output file a run writes, and where the PDF copy
 * of it ends up. The wall-clock timestamp, the current directory and the outcome of
 * the LibreOffice call are parameters.
 */
module Cli {
  import opened Strings
  import opened PosixPath

  /** What a run does: print the usage line and exit with `status`, or convert `input` into `output`. */
  datatype Invocation = Usage(status: int) | Convert(input: string, output: string)

  /** `name.rsplit('.', 1)[0]`: the name up to its last `.`, or the whole name when it has none. */
  function RSplitStem(name: string): (stem: string)
    ensures |stem| <= |name| && stem == name[..|stem|]
    ensures '.' !in name ==> stem == name
    ensures '.' in name ==> |stem| < |name| && name == stem + "." + name[|stem| + 1..] && '.' !in name[|stem| + 1..]
  {
    var dot := RFind(name, '.');
    if dot < 0 then name
    else
      assert name == name[..dot] + "." + name[dot + 1..];
      name[..dot]
  }

  /** The file name part of the output name used when none is given: `<stem>_output_<ts>.pptx`. */
  function DefaultOutputName(input: string, ts: string): string
  {
    RSplitStem(Basename(input)) + "_output_" + ts + ".pptx"
  }

  /** The output name used when none is given, inside `data_out`. */
  function DefaultOutput(input: string, ts: string): string
  {
    "data_out/" + DefaultOutputName(input, ts)
  }

  /** The decision main.py takes on its arguments (`argv[0]` is the script). */
  function Plan(argv: seq<string>, ts: string): (r: Invocation)
    ensures r.Usage? <==> |argv| < 2
    ensures r.Usage? ==> r.status == 1
    ensures r.Convert? ==> r.input == argv[1]
    ensures r.Convert? && |argv| >= 3 ==> r.output == argv[2]
    ensures r.Convert? && |argv| == 2 ==> r.output == DefaultOutput(argv[1], ts)
  {
    if |argv| < 2 then Usage(1)
    else Convert(argv[1], if |argv| < 3 then DefaultOutput(argv[1], ts) else argv[2])
  }

  /**
   * Without a second argument the output goes into the `data_out` directory under the
   * name `<stem>_output_<ts>.pptx`, where `stem` is the input's base name cut at its last
   * dot; a base name without a dot is kept whole.
   */
  lemma DefaultOutputLocation(input: string, ts: string)
    requires '/' !in ts
    ensures DefaultOutput(input, ts) == Join("data_out", DefaultOutputName(input, ts))
    ensures Dirname(DefaultOutput(input, ts)) == "data_out"
    ensures Basename(DefaultOutput(input, ts)) == DefaultOutputName(input, ts)
    ensures '.' !in Basename(input) ==> DefaultOutputName(input, ts) == Basename(input) + "_output_" + ts + ".pptx"
  {
    var name := DefaultOutputName(input, ts);
    NoSlashInName(input, ts);
    assert name[0] != '/';
    assert DefaultOutput(input, ts) == "data_out" + "/" + name;
    BasenameOfJoin("data_out", name);
    DirnameOfJoin("data_out", name);
  }

  /** The default output name has no `/`. */
  lemma NoSlashInName(input: string, ts: string)
    requires '/' !in ts
    ensures '/' !in DefaultOutputName(input, ts)
  {
    var base := Basename(input);
    var stem := RSplitStem(base);
    NotInPrefix('/', base, |stem|);
    NotInAppend('/', stem, "_output_");
    NotInAppend('/', stem + "_output_", ts);
    NotInAppend('/', stem + "_output_" + ts, ".pptx");
  }

  /** `os.path.dirname(os.path.abspath(pptx_path))`: the directory LibreOffice writes the PDF into. */
  function PdfDir(cwd: string, pptxPath: string): string
  {
    Dirname(AbsPath(cwd, pptxPath))
  }

  /** The PDF path `pptx_to_pdf` reports: the deck's base name with its extension replaced by `.pdf`, in `PdfDir`. */
  function PdfPath(cwd: string, pptxPath: string): string
  {
    Join(PdfDir(cwd, pptxPath), SplitExtRoot(Basename(pptxPath)) + ".pdf")
  }

  /** What `pptx_to_pdf` ends with, given whether `soffice` is on the path and the exit status of the conversion. */
  datatype PdfOutcome = Skipped | ConversionFailed | Created(pdf: string)

  function PptxToPdf(cwd: string, pptxPath: string, sofficeFound: bool, status: int): (r: PdfOutcome)
    ensures r.Skipped? <==> !sofficeFound
    ensures r.Created? <==> sofficeFound && status == 0
    ensures r.Created? ==> r.pdf == PdfPath(cwd, pptxPath)
  {
    if !sofficeFound then Skipped
    else if status == 0 then Created(PdfPath(cwd, pptxPath))
    else ConversionFailed
  }

  /** The PDF lies in the deck's directory (made absolute) and is named after the deck. */
  lemma PdfBesideDeck(cwd: string, pptxPath: string)
    ensures Dirname(PdfPath(cwd, pptxPath)) == PdfDir(cwd, pptxPath)
    ensures Basename(PdfPath(cwd, pptxPath)) == SplitExtRoot(Basename(pptxPath)) + ".pdf"
  {
    var root := SplitExtRoot(Basename(pptxPath));
    var name := root + ".pdf";
    NotInPrefix('/', Basename(pptxPath), |root|);
    NotInAppend('/', root, ".pdf");
    JoinUnderDirname(AbsPath(cwd, pptxPath), name);
  }

  /** For a default output name the PDF is `<stem>_output_<ts>.pdf`. */
  lemma DefaultPdfName(cwd: string, input: string, ts: string)
    requires '/' !in ts
    ensures Basename(PdfPath(cwd, DefaultOutput(input, ts))) == RSplitStem(Basename(input)) + "_output_" + ts + ".pdf"
  {
    var stem := RSplitStem(Basename(input));
    var root := stem + "_output_" + ts;
    OutputNameParts(stem, ts);
    NotInAppend('/', "_output_", ts);
    SplitExtRootOf(root, "pptx", |stem|);
    DefaultOutputLocation(input, ts);
    PdfBesideDeck(cwd, DefaultOutput(input, ts));
  }

  /** The pieces of `<stem>_output_<ts>.pptx`: its root before the last dot and the suffix after the stem. */
  lemma OutputNameParts(stem: string, ts: string)
    ensures stem + "_output_" + ts + ".pptx" == (stem + "_output_" + ts) + "." + "pptx"
    ensures (stem + "_output_" + ts)[|stem|..] == "_output_" + ts
    ensures (stem + "_output_" + ts)[|stem|] == '_'
  {
    var root := stem + "_output_" + ts;
    assert root[|stem|..] == "_output_" + ts;
  }
}
