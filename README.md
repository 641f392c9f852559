# powerpoint-speaker-notes, modelled in Dafny

The program takes a PowerPoint deck. It stamps a running page number onto the slides it
visits and puts a new slide right after each of them. The new slide holds a placeholder
image named after the slide it follows. It saves the result as a new deck and, when
LibreOffice is available, converts that deck to PDF. A separate parser reads a Markdown
notes file and returns a note text for each slide, keyed by `## Slide <k>` headers. It
warns about every other `##` section it finds.

The model covers four things:

- the notes parser (`utils/notes_parser.py`);
- the slide loop with its page labels and companion slides (`utils/pptx_tools.py`);
- the name of each placeholder image;
- how `main.py` chooses the output deck's name and the PDF's name.

Files:

- `wrappers.dfy` — `Option` and `Result`.
- `strings.dfy` (module `Strings`) — the Python `str` operations the program uses, on
  ASCII: `isspace`, `strip`, `rstrip`, `lower`, `int` of a digit string, `str` of an
  integer, and `rfind`.
- `posix_path.dfy` (module `PosixPath`) — `os.path.basename`, `dirname`, `join`,
  `splitext` and `abspath`.
- `notes_parser.dfy` (module `NotesParser`) — covers four things:
  - the header pattern `^##\s+Slide\s+(\d+)\s*$`, matched line by line (`re.MULTILINE`,
    `re.IGNORECASE`);
  - the list of matches `finditer` yields;
  - the notes list with its last-write-wins rule;
  - the warning scan.

  `ParseNotesMd` and `ParseNotes` are methods. Their loops are proved against the
  functions `Note` and `Warnings`, and the lemmas state what those functions mean.
- `pptx_tools.dfy` (module `PptxTools`) — the deck as a class `Deck`:
  - `order` is the live slide-id list, `_sldIdLst`;
  - `shapes` maps each slide id to the shapes on that slide;
  - `nextId` is the next free slide id.

  `add_slide`, `_sldIdLst.insert` and `shapes.add_…` are methods that change it.
  `AddPageNumber` is a method, and `ProcessPresentation` is the `while` loop of
  `process_presentation`. The loop is proved against `Interleaved`, a function of the
  original slide list, through the invariant `Rounds`.
- `cli.dfy` (module `Cli`) — covers three things:
  - the argument handling of `main.py`;
  - the default output name `data_out/<stem>_output_<timestamp>.pptx`;
  - the PDF path that `pptx_to_pdf` reports.

### Where the code departs from its stated purpose

- **Where a section ends.** A section ends at the start of the next `## Slide <k>` match
  (`notes_parser.py:13`), not at the next `##` line of any title. Any other `##` line
  inside a section is therefore part of that section's text. The warning it draws still
  says the section was "found in markdown and ignored" (`notes_parser.py:23`).
  `NoHeaderInsideSection` states the rule the code follows.
- **How many slides the loop produces.** The loop's comment says "Duplicate slide after
  current" (`pptx_tools.py:47`), and the program's purpose is a companion slide after every
  slide. The loop does something else: it compares a live index that grows by 2 with the
  ORIGINAL count (`pptx_tools.py:42`). It therefore makes only `ceil(N/2)` rounds, and the
  deck ends with `N + ceil(N/2)` slides instead of `2N`. See "## Findings".
- **An unreadable notes file.** `parse_notes` opens the file without any handling
  (`notes_parser.py:29-30`), so the error reaches the caller. The model returns
  `Err(Unreadable)`.
- **What the companion slide holds.** The picture box is fixed at (1 in, 1 in), 7.5 in by
  5.5 in (`pptx_tools.py:53`), whatever the slide's size. The companion slide holds no
  notes text.

## Model

| member | source | states |
|---|---|---|
| NotesParser.ParseHeader | utils/notes_parser.py:7 | Definition: the slide number the header pattern `^##\s+Slide\s+(\d+)\s*$` reads from one whole line, or None. It requires `##`, a blank, a maximal blank run, then the slide part |
| NotesParser.IsSlideWord | utils/notes_parser.py:7 | Definition: the `Slide` of the header pattern under `re.IGNORECASE`, a five-letter word whose ASCII lower case is `slide` |
| NotesParser.ParseSlideTail | utils/notes_parser.py:7 | Definition: `Slide\s+(\d+)\s*$`, the word `slide` in any letter case followed by the number part |
| NotesParser.ParseNumberTail | utils/notes_parser.py:7-14 | Definition: `\s+(\d+)\s*$`, a non-empty blank run, a non-empty digit run and only blanks after it. The number is `int(group(1))` |
| NotesParser.HeaderAt | utils/notes_parser.py:7-9 | Definition: the header pattern tried at each position, giving the number that the line starting there announces, or None |
| NotesParser.Select | utils/notes_parser.py:9 | Definition: the `finditer` scan over the lines from the `k`th on, in order. Each line the header pattern accepts gives one match: its start, its end and `int(group(1))` |
| NotesParser.IsLineStart | utils/notes_parser.py:7 | Definition: `^` under MULTILINE, the start of the text or the position after a `\n` |
| NotesParser.LineEnd | utils/notes_parser.py:7 | Definition: `$` under MULTILINE, the first `\n` at or after a position, or the end of the text |
| NotesParser.EntryCount | utils/notes_parser.py:8 | Definition: `len([""] * slide_count)`, which is `slide_count` and 0 for a negative count |
| NotesParser.Section | utils/notes_parser.py:12-15 | Definition: `md_text[m.end():next.start()].strip()`, ending at the next match or the end of the text |
| NotesParser.NoteAmong | utils/notes_parser.py:11-17 | Definition: the entry of slide `k` after the first `n` loop passes, the section of the last of them numbered `k`, or `""` |
| NotesParser.Note | utils/notes_parser.py:8-17 | Definition: the entry of slide `k` after the whole match loop |
| NotesParser.SectionTitle | utils/notes_parser.py:20-21 | Definition: for a line matching `^##\s+(.*)$`, `group(1).strip()`, otherwise None |
| NotesParser.IsNumberTitle | utils/notes_parser.py:22 | Definition: `\s+\d+$` on the rest of a stripped title |
| NotesParser.IsSlideTitle | utils/notes_parser.py:22 | Definition: `re.match(r"(?i)^Slide\s+\d+$", title)` |
| NotesParser.WarningMessage | utils/notes_parser.py:23 | Definition: the text of the printed warning, `Warning: unexpected section '## <title>' found in markdown and ignored` |
| NotesParser.PerLine | utils/notes_parser.py:20 | Definition: a scan over the lines of the text in order, concatenating a per-line result |
| NotesParser.Warnings | utils/notes_parser.py:20-23 | Definition: the warnings of the second loop, one `LineWarning` per line in document order |
| NotesParser.HasMarkdownExtension | utils/notes_parser.py:27 | Definition: `path.lower().endswith('.md')` |
| NotesParser.HeaderComplete | utils/notes_parser.py:7 | Every line of the form `##`, blanks, `slide` in any letter case, blanks, digits, optional blanks is a header, and it announces the value of its digits |
| NotesParser.HeaderSound | utils/notes_parser.py:7 | Every line the header pattern accepts has exactly that form, and the number it reports is the value of its digits |
| NotesParser.HeaderLineSound | utils/notes_parser.py:7 | An accepted line is `##`, a non-empty blank run, and a slide part that reports the same number |
| NotesParser.SlideTailSound | utils/notes_parser.py:7 | An accepted slide part is the word `slide` in some letter case followed by an accepted number part |
| NotesParser.NumberTailSound | utils/notes_parser.py:7 | An accepted number part is blanks, digits, blanks, and its value is the value of those digits |
| NotesParser.NumberTailComplete | utils/notes_parser.py:7 | Blanks, digits and optional blanks are accepted with the digits' value |
| NotesParser.SlideTailComplete | utils/notes_parser.py:7 | `slide` in any letter case followed by an accepted number part is accepted with that number |
| NotesParser.HeaderLineComplete | utils/notes_parser.py:7 | `##` and a maximal blank run followed by an accepted slide part is accepted with that number |
| NotesParser.HeaderForSlide | utils/notes_parser.py:7 | `## Slide <k>` announces slide `k` for every `k` |
| NotesParser.HeaderForSlideAnyCase | utils/notes_parser.py:7 | Letter case and tabs do not matter: `##\tSLIDE\t<k> ` announces slide `k` |
| NotesParser.HeaderEndsInDigit | utils/notes_parser.py:7 | Once trailing blanks are removed, a header line ends in a digit, so `## Slide 3 intro` is not a header |
| NotesParser.NumberTailRejects | utils/notes_parser.py:7 | Digits followed by a character that is neither a digit nor a blank are rejected |
| NotesParser.LineEndAtBreak | utils/notes_parser.py:7 | `$` under MULTILINE: a line ends at a line break or at the end of the text, and a new line starts after the break |
| NotesParser.LineEndNoBreak | utils/notes_parser.py:7 | No line break lies between a line start and that line's `$` |
| NotesParser.LineEndBefore | utils/notes_parser.py:7 | A line ends no later than the next line break |
| NotesParser.LineAtNoBreak | utils/notes_parser.py:7 | A line holds no line break |
| NotesParser.LineCountFrom | utils/notes_parser.py:7 | Every line start begins at least one line, possibly empty |
| NotesParser.LineCountStep | utils/notes_parser.py:7 | The lines from a line start are that line plus the lines after its break, one line when no break follows |
| NotesParser.LineStartStep | utils/notes_parser.py:7 | A later line counted from `p` is a line counted from the position after the break that ends the line at `p` |
| NotesParser.LineStartSound | utils/notes_parser.py:7 | Every counted line begins where `^` matches under MULTILINE, at or after the position counted from |
| NotesParser.LineStartNext | utils/notes_parser.py:7 | Each line after the first begins right after the break that ends the line before it |
| NotesParser.LineStartComplete | utils/notes_parser.py:7 | Every position where `^` matches at or after `p` is one of the counted lines |
| NotesParser.Lines | utils/notes_parser.py:7 | The lines of the text, each starting where `^` matches and ending at its `$` |
| NotesParser.LinesInOrder | utils/notes_parser.py:7 | The lines lie in the text in document order, each ending before the next one starts |
| NotesParser.LineStartsSound | utils/notes_parser.py:7 | Every counted line of the whole text begins at a line start |
| NotesParser.SelectSound | utils/notes_parser.py:9 | Every match the scan yields is one of the scanned lines that the header pattern accepts, with the number it reports |
| NotesParser.SelectComplete | utils/notes_parser.py:9 | Every scanned line that the header pattern accepts is the start of one of the matches |
| NotesParser.SelectOrdered | utils/notes_parser.py:9 | The matches of `finditer` come in document order and do not overlap |
| NotesParser.ConsMatch | utils/notes_parser.py:9 | Proof helper (used in `SelectOrdered`): a match ending before the start of later ordered matches keeps the list ordered |
| NotesParser.Matches | utils/notes_parser.py:9 | `list(header_re.finditer(md_text))` is ordered and non-overlapping |
| NotesParser.MatchIsHeaderLine | utils/notes_parser.py:9 | Each match spans a whole line from its `^` to its `$`, and its `group(1)` is the number that line announces |
| NotesParser.MatchesAreHeaderLines | utils/notes_parser.py:9 | A line is a match exactly when the header pattern accepts it |
| NotesParser.LastFor | utils/notes_parser.py:11-17 | Finds the last of the first `n` matches that names slide `k`, or reports that none of them does |
| NotesParser.NoteAmongStep | utils/notes_parser.py:16-17 | Processing match `i` replaces the note of the slide it names by its section and keeps every other slide's note |
| NotesParser.LastHeaderWins | utils/notes_parser.py:11-17 | The note of slide `k` is the section of the LAST `## Slide k` header |
| NotesParser.NoHeaderNoNote | utils/notes_parser.py:8 | A slide that no header names keeps the empty note |
| NotesParser.NoHeaderInsideSection | utils/notes_parser.py:12-13 | A section contains no slide header line: it runs from the end of its header to the start of the next header, or to the end of the text |
| NotesParser.CollectNotes | utils/notes_parser.py:8-18 | The match loop returns `slide_count` entries (none when the count is negative). Entry `k` is the section of the last of the matches that names slide `k+1`, or `""`. Numbers outside `1..slide_count` are dropped |
| NotesParser.NotesStep | utils/notes_parser.py:14-17 | One pass of the loop keeps each entry equal to the note of its slide after the matches processed so far |
| NotesParser.NoteStepAt | utils/notes_parser.py:14-17 | The same step for a single entry |
| NotesParser.ParseNotesMd | utils/notes_parser.py:5-24 | Returns `max(slide_count, 0)` entries. Entry `k` is the note of slide `k+1`. The warnings are those of the scan, in line order |
| NotesParser.NumberTailToTitle | utils/notes_parser.py:22 | The number part of a header, once stripped, is a title's `\s+\d+` |
| NotesParser.TitleToNumberTail | utils/notes_parser.py:22 | On one line, a stripped title's `\s+\d+` comes from a header's number part |
| NotesParser.NumberTailIffTitle | utils/notes_parser.py:22 | On one line, the header's number part and the title's number part accept the same texts |
| NotesParser.SlideTailIffTitle | utils/notes_parser.py:22 | On one line, the header's `Slide` part and the title test `(?i)^Slide\s+\d+$` accept the same texts |
| NotesParser.WarningIffNotHeader | utils/notes_parser.py:20-22 | A `##` line has a title of the form `Slide <digits>` exactly when the header pattern accepts it |
| NotesParser.SpanOnLine | utils/notes_parser.py:21 | Within one line, the whitespace `strip` removes is the run `\s` matches |
| NotesParser.StripRightOf | utils/notes_parser.py:21 | `rstrip` removes exactly a trailing whitespace run |
| NotesParser.StripRightSuffix | utils/notes_parser.py:21 | `rstrip` commutes with dropping a prefix that it keeps |
| NotesParser.LineWarning | utils/notes_parser.py:20-23 | A line produces at most one warning |
| NotesParser.WarnedIffNotMatched | utils/notes_parser.py:20-23 | A `##` line in a document draws a warning exactly when it is not one of the header matches |
| NotesParser.PerLineStep | utils/notes_parser.py:20 | A scan over the lines yields the current line's part followed by the parts of the lines after it |
| NotesParser.ScanLines | utils/notes_parser.py:20-23 | The scan loop visits every line once, in order, and collects each line's warnings |
| NotesParser.ScanStep | utils/notes_parser.py:20-23 | Adding the current line's part keeps the collected prefix plus the rest equal to the whole scan |
| NotesParser.MarkdownExtensionCases | utils/notes_parser.py:27 | `path.lower().endswith('.md')` holds exactly for paths ending in `.md`, `.MD`, `.Md` or `.mD` |
| NotesParser.ParseNotes | utils/notes_parser.py:26-31 | A path without the `.md` extension fails with the format error before anything is read. An unreadable file fails with the read error. Otherwise the result is that of `parse_notes_md` |
| PptxTools.Tenths | utils/pptx_tools.py:12-15 | Definition: `Inches(t / 10)` in EMU, 91440 per tenth of an inch |
| PptxTools.PageLabel | utils/pptx_tools.py:16-19 | Definition: the text box `add_page_number` adds, at the page label box, with paragraphs `""` (the frame's first) and `Page <n>` (the added one) |
| PptxTools.ImagePath | utils/pptx_tools.py:29 | Definition: `os.path.join(tmpdir, f"slide_{slide_idx+1}.png")` |
| PptxTools.CompanionPicture | utils/pptx_tools.py:46-53 | Definition: the picture `add_picture` puts on the new slide, the placeholder `slide_<idx+1>.png` in the picture box |
| PptxTools.RoundsOrder | utils/pptx_tools.py:42-57 | Definition, part of the loop invariant: after `k` rounds the live list is `Interleaved(orig, k)` and `k` new ids are in use |
| PptxTools.RoundsKeys | utils/pptx_tools.py:49 | Definition, part of the loop invariant: after `k` rounds the slides are the old ones plus the `k` new ones |
| PptxTools.RoundsOthers | utils/pptx_tools.py:42-57 | Definition, part of the loop invariant: slides the loop does not visit keep their shapes |
| PptxTools.RoundsLabels | utils/pptx_tools.py:44 | Definition, part of the loop invariant: after `k` rounds original `j` carries its old shapes plus page label `j+1` when `j < k`, and no more |
| PptxTools.Labelled | utils/pptx_tools.py:44 | Definition: the shapes of one original after `k` rounds |
| PptxTools.RoundsPictures | utils/pptx_tools.py:53 | Definition, part of the loop invariant: new slide `j` holds only the picture of live index `2j` |
| PptxTools.PictureAt | utils/pptx_tools.py:53 | Definition: the shapes of one new slide |
| PptxTools.Rounds | utils/pptx_tools.py:42-57 | Definition of the loop invariant "after `k` rounds", the conjunction of the five parts above. The ensures of `ProcessPresentation` and `ProcessEverySlide` are stated in it |
| PptxTools.Deck.Valid | utils/pptx_tools.py:36-38 | Definition of the deck class invariant. Every listed slide id has a shape list, no id is listed twice, and all ids in use are below the next free id |
| PptxTools.PageNumberBox | utils/pptx_tools.py:12-15 | The page label box is at 6675120, 6400800 EMU and measures 914400 by 365760 EMU (1.2 in left of and 0.5 in above (8.5 in, 7.5 in), 1 in by 0.4 in) |
| PptxTools.PictureBox | utils/pptx_tools.py:53 | The companion picture is at 914400, 914400 EMU and measures 6858000 by 5029200 EMU (1 in, 1 in, 7.5 in by 5.5 in) |
| PptxTools.PageLabelInjective | utils/pptx_tools.py:18-19 | Different page numbers give different labels |
| PptxTools.AddPageNumber | utils/pptx_tools.py:11-23 | The slide gains exactly one text box on top, at the page label box, holding the paragraphs `""` and `Page <n>`. Nothing else in the deck changes |
| PptxTools.ImagePathParts | utils/pptx_tools.py:29 | The placeholder lies in the temporary directory and is named `slide_<idx+1>.png` |
| PptxTools.ImageNamesDistinct | utils/pptx_tools.py:29 | Different live indices give different image file names |
| PptxTools.ImagePathsDistinct | utils/pptx_tools.py:29 | Different live indices give different image paths |
| PptxTools.Deck.constructor | utils/pptx_tools.py:36-38 | The deck lists the given slides in order under fresh ids |
| PptxTools.Deck.AddSlide | utils/pptx_tools.py:49 | Appends a new, empty slide with a fresh id and changes nothing else |
| PptxTools.Deck.MoveLastTo | utils/pptx_tools.py:51 | The id list becomes the old one with its last id moved, and the shapes stay unchanged |
| PptxTools.Deck.AddShape | utils/pptx_tools.py:53 | One slide gains the shape on top, and nothing else changes |
| PptxTools.InsertLast | utils/pptx_tools.py:51 | Inserting an id element that is already in the list moves it. The last id then stands at `min(pos, len-1)` and the others keep their order |
| PptxTools.InsertLastPermutes | utils/pptx_tools.py:51 | The move only reorders the id list |
| PptxTools.InsertLastSplit | utils/pptx_tools.py:51 | Before the move the list is `front + back + [last]`, after it `front + [last] + back` |
| PptxTools.SwapLastTwo | utils/pptx_tools.py:51 | Proof helper (a multiset identity used in `InsertLastPermutes`): swapping the last two parts of a list keeps its elements |
| PptxTools.InsertLastAt | utils/pptx_tools.py:51 | Gives the index each element moves to |
| PptxTools.InsertLastDistinct | utils/pptx_tools.py:51 | The move keeps the ids distinct |
| PptxTools.Pairs | utils/pptx_tools.py:42-57 | `k` rounds produce `2k` leading ids |
| PptxTools.PairsAt | utils/pptx_tools.py:42-57 | In the leading part, original `j` stands at `2j` and its companion at `2j+1` |
| PptxTools.PairsBelow | utils/pptx_tools.py:42-57 | The leading part holds only originals and the new ids made so far |
| PptxTools.Interleaved | utils/pptx_tools.py:42-57 | After `k` rounds the list has `N + k` slides |
| PptxTools.InterleavedAt | utils/pptx_tools.py:42-57 | After `k` rounds, original `j < k` stands at `2j` with its companion at `2j+1`, and originals `k..` follow unchanged |
| PptxTools.InterleavedStart | utils/pptx_tools.py:38-42 | Before the first round the list is the original one |
| PptxTools.InterleaveStep | utils/pptx_tools.py:49-51 | Appending the new slide and moving it to `2k+1` turns `k` rounds into `k+1` rounds |
| PptxTools.AppendDistinct | utils/pptx_tools.py:49 | Adding an id not yet listed keeps the ids distinct |
| PptxTools.InterleavedBelow | utils/pptx_tools.py:42-57 | All live ids are below the next free id |
| PptxTools.InterleavedDistinct | utils/pptx_tools.py:42-57 | No slide appears twice in the list during the loop |
| PptxTools.FinalDeck | utils/pptx_tools.py:42 | The loop stops after `ceil(N/2)` rounds, with `N + ceil(N/2)` slides, fewer than `2N` once `N >= 2`. The last `floor(N/2)` originals end the list without companions |
| PptxTools.RoundsStart | utils/pptx_tools.py:38-41 | The loop invariant holds before the first round |
| PptxTools.LabelStep | utils/pptx_tools.py:44 | A round's label goes onto exactly one original, and earlier labels are kept |
| PptxTools.PictureStep | utils/pptx_tools.py:53 | The new slide holds exactly its picture, and earlier companions keep theirs |
| PptxTools.OthersStep | utils/pptx_tools.py:42-57 | Slides outside the list are untouched |
| PptxTools.OrderStep | utils/pptx_tools.py:49-51 | The id list after the round is the interleaving of one more round |
| PptxTools.KeysStep | utils/pptx_tools.py:49 | The shape map learns exactly the new id |
| PptxTools.RoundStep | utils/pptx_tools.py:42-57 | One round preserves the loop invariant with one more round |
| PptxTools.RoundStarts | utils/pptx_tools.py:43 | Before round `k`, the live slide at index `2k` is original `k` |
| PptxTools.RoundDone | utils/pptx_tools.py:43-57 | The state one `Round` leaves is that of one more round, with page `k+1` and the picture of live index `2k` |
| PptxTools.RoundsEnd | utils/pptx_tools.py:42-56 | A loop of step 2 below `N` runs `ceil(N/2)` times |
| PptxTools.UpdateTwice | utils/pptx_tools.py:49-53 | Proof helper (a map identity used in `Round`): a second update of the same key overrides the first |
| PptxTools.Round | utils/pptx_tools.py:43-55 | The live slide at `slide_idx` gains page label `page_num`. A new slide holding only the picture of `slide_<slide_idx+1>.png` is put right after it |
| PptxTools.ProcessPresentation | utils/pptx_tools.py:35-58 | After the loop, `ceil(N/2)` rounds have run. Original `j < ceil(N/2)` carries page label `j+1` and is followed by a new slide holding only the picture named after live index `2j`. Every other slide is unchanged, and no slide is listed twice |
| PptxTools.ProcessEverySlide | utils/pptx_tools.py:42 | Corrected loop bound: `N` rounds run, and every original is labelled and followed by its companion |
| PptxTools.CompleteInterleaving | utils/pptx_tools.py:42-57 | After a round for every original the deck has `2N` slides, original `j` at `2j` and its companion at `2j+1` |
| Cli.DefaultOutputName | main.py:37-39 | Definition: `f"{basename.rsplit('.', 1)[0]}_output_{ts}.pptx"` |
| Cli.DefaultOutput | main.py:39 | Definition: that name under `data_out/` |
| Cli.PdfDir | main.py:14 | Definition: `os.path.dirname(os.path.abspath(pptx_path))` |
| Cli.PdfPath | main.py:18-19 | Definition: `os.path.join(out_dir, os.path.splitext(os.path.basename(pptx_path))[0] + ".pdf")` |
| Cli.Plan | main.py:25-41 | Without an input argument the run prints the usage line and exits with status 1. Otherwise it converts `argv[1]` into `argv[2]` when given, and into the default name otherwise |
| Cli.RSplitStem | main.py:39 | `rsplit('.', 1)[0]` cuts the name at its last dot and keeps a name without a dot whole |
| Cli.DefaultOutputLocation | main.py:37-39 | The default output lies in `data_out` and is named `<stem>_output_<ts>.pptx`, with the input's directory removed |
| Cli.NoSlashInName | main.py:37-39 | The default file name holds no `/` |
| Cli.PptxToPdf | main.py:8-22 | Without `soffice` the conversion is skipped. On exit status 0 the PDF path is reported, and on any other status the conversion fails |
| Cli.PdfBesideDeck | main.py:14-19 | The PDF lies in the deck's directory, made absolute, and is the deck's base name with its extension replaced by `.pdf` |
| Cli.DefaultPdfName | main.py:18-39 | With a default output name the PDF is named `<stem>_output_<ts>.pdf` |
| Cli.OutputNameParts | main.py:39 | Proof helper (concatenation used in `DefaultPdfName`): the pieces of `<stem>_output_<ts>.pptx`, the root before the final dot |
| PosixPath.Join | utils/pptx_tools.py:29 | Definition: two-argument `os.path.join`. An absolute second part replaces the first, and a `/` is inserted unless the first part is empty or ends in `/` |
| PosixPath.AbsPath | main.py:14 | Definition: `os.path.abspath` without `normpath`. A relative path is joined to the current directory |
| PosixPath.Basename | main.py:37 | `basename` is the longest suffix without `/` |
| PosixPath.StripTrailingSlashes | main.py:14 | Removes the trailing `/` run |
| PosixPath.Dirname | main.py:14 | `dirname` is the head up to the last `/`, without its trailing slashes. A head made only of slashes (or empty) is returned whole, so `dirname("/a") == "/"` |
| PosixPath.JoinInjective | utils/pptx_tools.py:29 | Joining different relative names to one directory gives different paths |
| PosixPath.BasenameOfJoin | main.py:19 | A name joined to a directory is the basename of the result |
| PosixPath.JoinUnderDirname | main.py:14-19 | A name joined under a path's `dirname` stays in that directory under that name |
| PosixPath.DirnameOfJoin | main.py:19 | `dirname(join(d, name)) == d` for a directory as `dirname` returns it |
| PosixPath.SplitExtRoot | main.py:18 | `splitext(p)[0]`: the result is `p` or `p` cut at its last dot. It is cut exactly when that dot lies in the last component and some character before it in the component is not a dot, so `.bashrc` is kept whole and `a.b` becomes `a` |
| PosixPath.SplitExtRootOf | main.py:18 | The root of `root.ext` is `root` |
| Strings.IsSpace | utils/notes_parser.py:15 | Definition: `str.isspace` on ASCII, which is space, `\t`, `\n`, `\r`, `\v`, `\f` and `\x1c`-`\x1f` |
| Strings.IsBlank | utils/notes_parser.py:7 | Definition: `\s` restricted to one line, whitespace other than `\n` |
| Strings.DigitsValue | utils/notes_parser.py:14 | Definition: `int(d)` of a decimal digit string, leading zeros allowed |
| Strings.Span | utils/notes_parser.py:7 | The longest prefix in a character class |
| Strings.StripLeft | utils/notes_parser.py:15 | `lstrip` removes exactly the leading whitespace |
| Strings.StripRight | utils/notes_parser.py:21 | `rstrip` removes exactly the trailing whitespace |
| Strings.Strip | utils/notes_parser.py:15 | `strip` frames the result by whitespace on both sides |
| Strings.StripSpacePrefix | utils/notes_parser.py:15 | Whitespace in front does not change `strip` |
| Strings.Lower | utils/notes_parser.py:27 | `lower` folds ASCII letters one character at a time |
| Strings.NatToString | utils/pptx_tools.py:19 | `str(n)` is decimal digits without leading zeros that read back as `n` |
| Strings.IntToString | utils/pptx_tools.py:19 | `str(i)` puts `-` in front of negative numbers |
| Strings.IntToStringInjective | utils/pptx_tools.py:19 | Different integers are written differently |
| Strings.RFind | main.py:39 | `rfind` finds the last occurrence, or -1 |
| Strings.RFindAt | main.py:39 | `rfind` is determined by its defining facts |

## Left out

- Everything python-pptx does beyond the slide-id list and shapes: layouts, XML parts,
  relationships, and the saving (`prs.save`) and reading of the deck files. A deck is its
  slide-id list plus a shape list per slide.
- Text styling in `add_page_number`: font size, bold, colour and alignment
  (`pptx_tools.py:20-23`). These values are unobservable in the model.
- The creation, saving and removal of each placeholder image (PIL `Image.new`,
  `img.save`, `os.remove`), and `tempfile.mkdtemp`. The temporary directory is a
  parameter of `ProcessPresentation`.
- Printed messages. The `Saved:` line, the usage line and the PDF messages are not
  modelled. The warnings of `parse_notes_md` are returned as a list instead of printed.
- The `seen_sections` set in `parse_notes_md`. It is written but never read, so it has no
  effect on the result.
- `\s` matching a line break. In both patterns the model lets `\s` match only blanks
  inside a line. In Python, `##\n\nSlide 1` can match across lines. The model treats each
  line on its own.
- Python's greedy `\s*$` can extend `m.end()` over whitespace that spans line breaks. The
  section text is stripped afterwards, so the note is the same.
- Unicode. Whitespace, digits and case folding are ASCII only. Python's `\d`, `\s`,
  `isspace` and `lower` also accept non-ASCII characters.
- File reading in `parse_notes`. The file's text is a parameter: its content as `f.read()`
  returns it, or `None` when it cannot be read. In text mode Python has already turned
  `\r\n` and `\r` into `\n`, so the parameter never holds `\r` line ends. Raw CRLF text
  given to the model keeps its `\r` characters, which Python would not see. The UTF-8
  decoding and its errors are not modelled.
- NotesParser.ParseNumberTail: no limit on the length of the digit run. CPython 3.11+ (and
  security releases of 3.7-3.10) makes `int(m.group(1))` (`notes_parser.py:14`) raise
  `ValueError` for more than 4300 digits, its default integer string conversion limit. So
  `parse_notes_md` raises on a header such as `## Slide ` followed by 4301 digits, where
  `ParseNotesMd` and `CollectNotes` return a list. The limit is an interpreter setting
  (`sys.set_int_max_str_digits`), not part of the program.
- PptxTools.Deck.AddSlide: assumes that `prs.slide_layouts[6]` (`pptx_tools.py:48`) exists
  and is blank. python-pptx's `add_slide` copies the layout's placeholders onto the new
  slide, and a deck with fewer than seven layouts raises `IndexError`. The claims of
  `Round` and `ProcessPresentation` that a new slide holds only its picture hold under this
  assumption.
- The `soffice` lookup and the `os.system` call (`main.py:10-16`). Whether the lookup
  succeeded and the exit status are parameters. The command string is not modelled.
- The timestamp `time.strftime('%Y%m%d_%H%M%S')` (`main.py:39`) is a parameter.
- The test whether `data_out` exists, and its creation (`main.py:32-33`).
- `PosixPath.AbsPath`: no `normpath`. The current directory is a parameter, and `.` and
  `..` components are kept as written.

## Findings

| source | as written | input that shows it | evidently intended | confidence | as-written member | corrected member |
|---|---|---|---|---|---|---|
| utils/pptx_tools.py:42 | `while slide_idx < slide_count` compares the live index, which grows by 2 as companions are inserted, with the ORIGINAL slide count | a deck of 2 slides: one round runs, the result has 3 slides, and the second original gets neither a page number nor a companion | every original slide is stamped with its page number and followed by its companion, giving 2N slides | not executed | PptxTools.FinalDeck | PptxTools.ProcessEverySlide |
