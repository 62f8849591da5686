# Heading outlines of project_Quasar, in Dafny

project_Quasar reads the text of a PDF manual and builds its table of
contents. The output is a nested dictionary: chapters ("Глава N ...") hold
sections ("N.M ..."), and sections hold subsections ("N.M.K ..."). The
repository has three independent versions of this heading-outline parser,
plus a small pass that "updates" a loaded outline. This project models all
four and proves what each one does, quirks included.

- **Script.py** `extract_structure_from_pdf`, the line loop, plus `clean_text`.
  - An index-driven scanner: after a chapter, section or subsection heading it
    absorbs continuation lines by look-ahead.
  - Modules `CleanText`, `ScriptPatterns`, `ScriptScanner` and `ScriptProperties`.
  - `ScriptScanner.ExtractStructureFromLines` is the loop with its nested
    look-ahead loops, proved equal to the functional `ScriptScanner.ExtractStructure`.
  - The regexes are written out as predicates. This includes the backtracking of
    `^(\d+\.\d+)(?!\.)`: "12.34.5 X" is section "12.3" with title "4.5 X".
- **pdf_pages_reading.py** `extract_structure_from_text`.
  - A one-pass classifier keyed by whole stripped heading lines. Body lines are
    appended to the deepest open entry.
  - Its cursors alias dictionaries inside the result. `PagesStore` models those
    dictionaries as cells of an arena held by reference, and
    `PagesStore.ExtractStructureFromText` writes through the cursors as the code does.
  - A loop invariant proves that the result equals the key-based description
    `PagesOutline.ExtractStructure`.
  - `PagesProperties` proves what that description promises. One result: the
    subsection branch is dead code, so no section ever has subsections.
- **non_json.py** `extract_titles_from_pdf`, the per-page logic over pre-split
  page lines.
  - Each page gets two passes: chapters first, then sections and subsections.
  - The cursors `current_section` and `current_subsection` are references into
    the outline. `TitlesStore` models them over a heap of dictionaries:
    `TitlesStore.ExtractTitlesFromPages` is the page loop, proved equal to
    `TitlesOutline.ExtractTitles`.
  - A section line before any chapter raises. This is modelled as an error result.
- **test/with_json.py** `update_structure_with_text`.
  - An in-place pass over a two-level JSON object. It reassigns existing keys
    to their own values, so it is proved to return the very object it was
    given, unchanged (`WithJson`).

Shared modules:

- `Wrappers`: `Option` and `Result`.
- `Chars`: character classes.
- `Text`: greedy runs, `str.strip`, `str.split('\n')`.
- `Numbering`: dotted numbers `\d+(\.\d+)*`.
- `Outline`: the chapter/section/subsection outline used by Script.py and
  non_json.py.

Three behaviours of the code that the model keeps as written:

- In Script.py:70-78 the continuation lines after a section heading are consumed, but
  line 77 appends them to the chapter-title variable, which is never read again. So a
  section's stored title is the rest of its own line only
  (`ScriptProperties.SectionLineStep`).
- In non_json.py:42 a section line before any chapter line writes into `None` and
  raises `TypeError`, ending the call (`TitlesProperties.SectionLineWithoutChapterFails`).
- In pdf_pages_reading.py:84-93 the subsection branch is dead: every subsection line
  is taken by the section test first (`PagesProperties.NoSubsectionsEver`).

## Model

| member | source | states |
|---|---|---|
| CleanText.CleanIsNormalized | Script.py:9-11 | the cleaned line has no whitespace other than single spaces, no two spaces in a row, and none at either end |
| CleanText.CleanKeepsVisible | Script.py:9-11 | cleaning removes only whitespace: the non-whitespace characters of the input survive, in order |
| CleanText.CleanIdempotent | Script.py:9-11 | `clean_text` applied twice is `clean_text` applied once |
| CleanText.CleanFixesNormalized | Script.py:9-11 | a line that is already normalized is left unchanged |
| CleanText.CleanEmpty | Script.py:35-38 | a line cleans to the empty string exactly when it is all whitespace, which is the blank-line test |
| CleanText.CollapseIsCollapsed | Script.py:11 | after `re.sub(r'\s+', ' ', ...)` no whitespace other than single spaces is left |
| CleanText.CollapseKeepsVisible | Script.py:11 | the substitution keeps every non-whitespace character, in order |
| CleanText.CollapseFixesCollapsed | Script.py:11 | the substitution leaves an already collapsed string alone |
| Text.StripHasNoOuterSpace | pdf_pages_reading.py:76 | `strip()` leaves no whitespace at either end |
| Text.StripIdempotent | pdf_pages_reading.py:76 | stripping twice is stripping once |
| Text.StripParts | pdf_pages_reading.py:76 | the input is an all-whitespace prefix, the stripped string and an all-whitespace suffix |
| Text.StripEmpty | Script.py:11 | `strip()` gives the empty string exactly when the input is all whitespace |
| Text.SplitLinesHaveNoNewline | pdf_pages_reading.py:74 | no piece of `split('\n')` holds a newline |
| Text.JoinSplitLines | pdf_pages_reading.py:74 | joining the pieces of `split('\n')` with newlines gives the text back |
| Text.SplitJoinLines | Script.py:32 | newline-free lines are recovered by splitting their join |
| Numbering.NumberPrefixIsNumber | Script.py:74-75 | what the greedy `^\d+\.\d+` prefix matches is a dotted number with the required dots |
| Numbering.MatchFromIsNumber | Script.py:64 | the greedy digit-and-dot match consumes exactly a continuation of a dotted number |
| Numbering.NumberEndsInDigits | Script.py:64 | a dotted number never starts or ends with a dot |
| Numbering.NumberPrefixFewerDots | non_json.py:36-37 | where a number has one dot more, the shorter match ends at a dot, so it is followed by no whitespace |
| ScriptPatterns.ChapterMatch | Script.py:43-53 | the chapter pattern matches exactly the lines the look-ahead's chapter test accepts; its group 1 is a digit run at the start of the line's remainder |
| ScriptPatterns.ChapterNumberIsDigits | Script.py:43-45 | a chapter number is a non-empty run of digits |
| ScriptPatterns.NumberEnd | Script.py:64 | the end of `\d+(\.\d+){n}(?!\.)` after backtracking is where a number with `n` dots ends and no dot follows |
| ScriptPatterns.HeadingNumberIsDotted | Script.py:64-89 | group 1 of a section heading is `d.d` and of a subsection heading `d.d.d` |
| ScriptPatterns.SectionMatchStartsSection | Script.py:64-75 | every section heading also passes the look-ahead's section test |
| ScriptPatterns.ChapterIsNotNumbered | Script.py:43-87 | a chapter line is never a section or subsection line |
| ScriptPatterns.SectionBacktracks | Script.py:64 | "12.34.5 X" is section "12.3" with title "4.5 X" |
| ScriptPatterns.SectionRejectsSubsectionNumber | Script.py:64 | "1.2.3 X" is not a section line |
| ScriptPatterns.SubsectionExample | Script.py:87 | "1.2.3 X" is subsection "1.2.3" with title "X" |
| ScriptPatterns.ChapterExample | Script.py:43 | the match ignores case: "ГЛАВА 2 Итоги" is chapter "2" with title "Итоги" |
| ScriptScanner.CleanAll | Script.py:35 | every line is passed through `clean_text`, one for one |
| ScriptScanner.TitleEnd | Script.py:50-56 | the index where a look-ahead loop stops lies between its start and the end of the lines |
| ScriptScanner.TitleEndIsFirstStop | Script.py:50-99 | every line before the look-ahead's stop continues the title, and the stop is the end or the first line that ends it |
| ScriptScanner.AbsorbTitle | Script.py:50-99 | the look-ahead loop stops at `TitleEnd` and has appended `' ' + line` for each absorbed line |
| ScriptScanner.ScanLine | Script.py:35-106 | one pass of the loop body over the scanner's variables is `Step` of the state |
| ScriptScanner.ExtractStructureFromLines | Script.py:32-106 | the scanning loop with its look-ahead loops returns `ExtractStructure` of the lines |
| ScriptScanner.Step | Script.py:35-106 | one iteration keeps the cursor inside the structure and moves the index forward |
| ScriptScanner.Scan | Script.py:34-106 | the outer loop keeps the cursor inside the structure |
| ScriptProperties.ChapterLineStep | Script.py:43-61 | a chapter line's title is its remainder plus the following lines up to a blank, chapter or section line, which is left unconsumed; it is stored with no sections, replacing the same number; the section cursor is cleared |
| ScriptProperties.SectionLineStep | Script.py:64-84 | a section under the current chapter changes that chapter's sections only; its title is the rest of its own line; its continuation lines are skipped; the cursor moves to it |
| ScriptProperties.SubsectionLineStep | Script.py:87-104 | a subsection changes the current section's subsections only; its title absorbs every line up to the first blank or subsection line |
| ScriptProperties.OtherLineStep | Script.py:38-40 | blank or unmatched lines and orphan headings change nothing, and the loop moves one line on |
| ScriptProperties.NoChapterOnlyChapterLines | Script.py:65-88 | with no current chapter, every line but a chapter line changes nothing |
| ScriptProperties.SubsectionWithoutSectionDropped | Script.py:58-88 | after a chapter line, a subsection line before any section line is dropped |
| ScriptProperties.NoChapterNoStructure | Script.py:43-106 | text without a chapter line gives an empty structure |
| ScriptProperties.SubsectionSwallowsChapter | Script.py:96 | a chapter line right after a subsection heading is skipped by the outer loop, and the text the subsection's title is stripped from begins with the heading's own title, a space and that chapter line |
| ScriptProperties.AbsorbedStartsWith | Script.py:94-99 | the title a look-ahead loop builds begins with the heading's own title, a space and the first absorbed line |
| ScriptProperties.HeadingStopsAtChapter | Script.py:53-75 | a chapter or section heading's look-ahead stops at a chapter line and leaves it to the loop |
| ScriptProperties.VisitsIncrease | Script.py:34-106 | the indices the outer loop visits are in range and strictly increasing: no line is examined twice, and the loop ends |
| ScriptProperties.ExtractKeysValid | Script.py:43-89 | chapter keys are digit strings, section keys `d.d`, subsection keys `d.d.d` |
| ScriptProperties.ScanKeepsChapters | Script.py:59 | a chapter once created is in the final structure |
| Outline.PutSection | Script.py:79-81 | storing a section changes only that chapter's sections, adding or replacing the entry with no subsections |
| Outline.PutSubsection | Script.py:100-102 | storing a subsection changes only that section's subsections |
| PagesPatterns.SubsectionLineIsSectionLine | pdf_pages_reading.py:71-72 | every line the subsection pattern matches is also matched by the section pattern, which is tested first |
| PagesPatterns.ChapterLineIsNoSectionLine | pdf_pages_reading.py:70-72 | a chapter line matches neither the section nor the subsection pattern |
| PagesPatterns.ChapterLineExamples | pdf_pages_reading.py:70 | "Глава 1" is a chapter line; "Глава1" and "глава 1" are not |
| PagesPatterns.SectionLineExample | pdf_pages_reading.py:71 | "1. Введение" is a section line |
| PagesPatterns.SectionLineNeedsDot | pdf_pages_reading.py:71 | "1 Введение" is not a section line |
| PagesOutline.AppendText | pdf_pages_reading.py:95-101 | appending body text keeps every cursor inside the outline |
| PagesOutline.Step | pdf_pages_reading.py:76-101 | one line keeps every cursor inside the outline |
| PagesOutline.Scan | pdf_pages_reading.py:75-101 | the loop keeps every cursor inside the outline |
| PagesProperties.ChapterLineStep | pdf_pages_reading.py:79-82 | a chapter line adds the stripped line as a key, with a fresh entry titled by it that replaces an identical heading; every other chapter is kept; section and subsection are closed |
| PagesProperties.SectionLineStep | pdf_pages_reading.py:84-88 | a section line under an open chapter stores a fresh entry there, replacing an identical heading, and closes the subsection |
| PagesProperties.OrphanSectionStep | pdf_pages_reading.py:84-99 | a section line with no chapter is stored nowhere, yet becomes current, and the body line after it is lost |
| PagesProperties.AppendTextToDeepest | pdf_pages_reading.py:96-101 | appended text goes to the current subsection, else the current section, else the current chapter, with every other entry and all cursors unchanged; with that cursor stored nowhere, or nothing open, nothing changes |
| PagesProperties.BodyLineStep | pdf_pages_reading.py:95-101 | a non-heading line, empty or not, is appended with a newline to the deepest open entry in that sense, and moves no cursor |
| PagesProperties.AppendTextTwice | pdf_pages_reading.py:95-101 | two appends to the same open entry are one append of both texts, in order |
| PagesProperties.BodyRunCollected | pdf_pages_reading.py:95-101 | a run of body lines lands, in order, in the one entry open when the run begins |
| PagesProperties.PutSectionTwice | pdf_pages_reading.py:85-87 | a second store of the same section heading replaces the first |
| PagesProperties.PutSubsectionTwice | pdf_pages_reading.py:91-93 | a second store of the same subsection heading replaces the first |
| PagesProperties.NoSubsectionsEver | pdf_pages_reading.py:84-93 | no section of the result has a non-empty `subsections` map |
| PagesProperties.ExtractStructureKeys | pdf_pages_reading.py:70-81 | the top-level keys are exactly the stripped lines that start with "Глава", one whitespace character and a digit, and every entry's title is its key |
| PagesProperties.ChapterLineForgetsCursors | pdf_pages_reading.py:79-82 | two states with the same outline take the same step on a chapter line, whatever their cursors |
| PagesProperties.PreludeDropped | pdf_pages_reading.py:84-101 | from a state with nothing stored and no chapter open, the lines before the next chapter line leave no trace: the result is the one scanned from that chapter line on |
| PagesProperties.BeforeFirstChapterDropped | pdf_pages_reading.py:84-101 | the result is the same without everything before the first chapter line |
| PagesProperties.StepSeesStrippedLine | pdf_pages_reading.py:76 | two lines that strip to the same string take the same step |
| PagesProperties.OnlyStrippedLinesCount | pdf_pages_reading.py:76 | texts whose lines strip to the same strings give the same result |
| PagesStore.ChapterWrite | pdf_pages_reading.py:100-101 | rewriting a chapter's dictionary changes that chapter of the outline only |
| PagesStore.SectionWrite | pdf_pages_reading.py:98-99 | rewriting a stored section's dictionary changes that section only |
| PagesStore.SubsectionWrite | pdf_pages_reading.py:96-97 | rewriting a stored subsection's dictionary changes that subsection only |
| PagesStore.UnreadWrite | pdf_pages_reading.py:85-93 | writing to a dictionary no chapter reaches leaves the outline as it was |
| PagesStore.ChapterLineRefines | pdf_pages_reading.py:79-82 | a chapter line's writes refine `Step` |
| PagesStore.SectionLineRefines | pdf_pages_reading.py:84-88 | a section line's writes under an open chapter refine `Step` |
| PagesStore.OrphanSectionLineRefines | pdf_pages_reading.py:84-88 | a section line's writes with no chapter refine `Step` |
| PagesStore.SubsectionBodyRefines | pdf_pages_reading.py:96-97 | a body line written to the current subsection refines `Step` |
| PagesStore.SectionBodyRefines | pdf_pages_reading.py:98-99 | a body line written to the current section refines `Step` |
| PagesStore.ChapterBodyRefines | pdf_pages_reading.py:100-101 | a body line written to the current chapter refines `Step` |
| PagesStore.LostBodyRefines | pdf_pages_reading.py:96-99 | a body line written to a dictionary stored nowhere refines `Step` |
| PagesStore.NowhereBodyRefines | pdf_pages_reading.py:95-101 | a body line with no open entry refines `Step` |
| PagesStore.LineStore | pdf_pages_reading.py:76-101 | one line, written through the cursors, keeps the arena and cursors refining `Step` of the key-based state; the subsection branch is proved unreachable |
| PagesStore.ExtractStructureFromText | pdf_pages_reading.py:65-103 | the loop written through aliased dictionaries returns `ExtractStructure` of the text |
| TitlesPatterns.TitleNumberIsDotted | non_json.py:36-37 | group 1 of a section heading is `d.d` and of a subsection heading `d.d.d` |
| TitlesPatterns.SpacedRestOfStripped | non_json.py:20-24 | on a stripped line, `\s+(.+)` takes all the whitespace and the rest of the line |
| TitlesPatterns.SubsectionIsNotSection | non_json.py:36-48 | a line the subsection pattern matches is never a section line, so it reaches the subsection branch |
| TitlesPatterns.ChapterIsNotNumbered | non_json.py:24-37 | a chapter line is no section or subsection line |
| TitlesPatterns.BareChapterRejected | non_json.py:24 | "Глава 3" with no title is no chapter heading |
| TitlesPatterns.UpperCaseChapterRejected | non_json.py:24 | the match is case-sensitive: "ГЛАВА 3 Итоги" is no chapter heading |
| TitlesPatterns.ChapterTitleExample | non_json.py:24-27 | "Глава 3 Итоги" is chapter "3" with title "Итоги" |
| TitlesOutline.StripAll | non_json.py:20 | every line of the page is stripped, one for one |
| TitlesOutline.ChapterLine | non_json.py:24-32 | a chapter line keeps both cursors inside the outline |
| TitlesOutline.SectionLine | non_json.py:36-53 | a section or subsection line that does not raise keeps both cursors inside the outline |
| TitlesOutline.Page | non_json.py:16-53 | a page that does not raise keeps both cursors inside the outline |
| TitlesProperties.ChapterLineStores | non_json.py:24-32 | a chapter line stores the chapter with no sections, replacing one with the same number, and moves the section cursor; the subsection cursor stays, cut off if it was in the replaced chapter |
| TitlesProperties.ChaptersPassEndsAtLastChapter | non_json.py:23-32 | after the chapter pass the section cursor is at the page's last chapter line, or unchanged when there is none |
| TitlesProperties.SectionLineStores | non_json.py:39-46 | a section line under a chapter stores the section with no subsections in that chapter only, and moves the subsection cursor to it |
| TitlesProperties.SectionLineWithoutChapterFails | non_json.py:42 | a section line with no chapter yet raises instead of being dropped |
| TitlesProperties.SubsectionLineStores | non_json.py:48-53 | a subsection line goes into the section the cursor points to; the chapter keys, the other chapters, that chapter's title and section keys, the other sections, that section's title and both cursors are unchanged |
| TitlesProperties.SubsectionBeforeSectionDropped | non_json.py:48 | a subsection line before any section line is dropped |
| TitlesProperties.SubsectionCrossesChapter | non_json.py:32-53 | after a chapter line with another number, a subsection still lands in the last section of the earlier chapter |
| TitlesProperties.SubsectionLostAfterSameChapter | non_json.py:28-53 | after a chapter line with the cursor's own number, the subsection is written to a dictionary no longer in the outline |
| TitlesProperties.SectionsPassFrame | non_json.py:35-53 | the section pass keeps the chapters and their titles and adds sections only under the current chapter |
| TitlesProperties.SectionLineKeepsSections | non_json.py:39-53 | one line of the section pass keeps the current chapter's sections and adds a section line's number there |
| TitlesProperties.SectionsPassStoresSections | non_json.py:35-46 | after the section pass, the current chapter still has all its sections and has the number of every section line of the pass |
| TitlesProperties.PageSectionsUnderLastChapter | non_json.py:23-46 | every section line of a page has its number stored under the chapter of the page's last chapter line, or an earlier page's, whatever the order of its lines, and no other chapter gains a section |
| TitlesProperties.OrphanSectionFails | non_json.py:35-46 | with no chapter seen, a section line anywhere in the pass makes the pass raise |
| TitlesProperties.FirstPageOrphanSectionFails | non_json.py:12-46 | a first page with a section line and no chapter line makes the whole call raise |
| TitlesStore.StoreChapterResolve | non_json.py:28-31 | storing a chapter reads out as that chapter with no sections, replacing the same number |
| TitlesStore.StoreSectionSections | non_json.py:42-45 | writing through a chapter's `sections` dictionary changes that chapter only |
| TitlesStore.StoreSectionResolve | non_json.py:42-46 | a section store reads out as the section added under the current chapter |
| TitlesStore.StoreSubsectionAttached | non_json.py:51-53 | writing through an attached subsection cursor changes that one section's subsections |
| TitlesStore.StoreSubsectionDetached | non_json.py:51-53 | writing through a cursor into a replaced chapter changes nothing in the outline |
| TitlesStore.ChapterLineRefines | non_json.py:24-32 | a chapter line's writes refine `ChapterLine` |
| TitlesStore.SectionLineRefines | non_json.py:39-46 | a section line's writes refine `SectionLine` |
| TitlesStore.SubsectionLineRefines | non_json.py:48-53 | a subsection line's writes refine `SectionLine` |
| TitlesStore.ChapterLineStore | non_json.py:24-32 | one chapter-pass line, written through the heap, keeps it refining `ChapterLine` |
| TitlesStore.ChaptersPassStore | non_json.py:23-32 | the chapter pass over the heap refines `ChaptersPass` |
| TitlesStore.SectionLineStore | non_json.py:36-53 | one section-pass line reports the error exactly when `SectionLine` fails, and otherwise refines it |
| TitlesStore.SectionsPassStore | non_json.py:35-53 | the section pass reports the error exactly when `SectionsPass` fails, and otherwise refines it |
| TitlesStore.ExtractTitlesFromPages | non_json.py:12-55 | the page loop over the heap returns `ExtractTitles` of the pages: the outline, or the error on an orphan section |
| WithJson.Get | test/with_json.py:18 | `get` returns the stored value for a present key and the default otherwise |
| WithJson.ReassignInChapters | test/with_json.py:20-22 | the inner loop leaves every chapter's object as it was |
| WithJson.UpdateStructureWithText | test/with_json.py:13-23 | the very object passed in is returned, with the same keys and values at both levels |

## Left out

- PDF opening and text extraction through fitz and PyPDF2 are foreign library
  calls, so the model takes the text or lines as input. This covers Script.py:21-30,
  `extract_text_from_pdf` (pdf_pages_reading.py:44-54), non_json.py:10-18 and
  `extract_pdf_content` (test/with_json.py:4-11).
- A page whose extracted text is not a string (non_json.py:17-18) is modelled as
  `None` in the pages list.
- non_json.py's `splitlines()` is not modelled: each page arrives as its list of lines.
- `pdf_extract` (pdf_pages_reading.py:11-42) is left out: it splits pages and
  writes files with a PDF library.
- `pdf_extract_batch` and `__pdf_extract` (pdf_pages_reading.py:105-111) are left
  out: they run on a thread pool.
- JSON saving and loading are left out: they go through a serialisation library
  (Script.py:114-121, pdf_pages_reading.py:56-63, non_json.py:57-59,
  test/with_json.py:28-34).
- The exception handler that returns `{}` (Script.py:110-112) is left out. It
  only catches failures of the PDF library.
- Logging calls and the module-level driver code are left out, including the
  timestamped file name in non_json.py:61-70.
- Character classes are not Python's full Unicode tables. They are fixed
  approximations:
  - whitespace is exactly `str.isspace`;
  - digits and letters are ASCII plus the Cyrillic block and a few ranges;
  - case folding for `re.IGNORECASE` covers ASCII and Cyrillic.
- No general regex engine is modelled. Each pattern is a predicate with the
  exact greedy and backtracking outcome.
- Dictionary insertion order is not modelled: dictionaries are maps. So the key
  order of the returned outlines, and of the saved JSON, is not captured.
- WithJson: JSON numbers are integers. Every chapter value is a JSON object, and the
  identity is proved for that case only. The code raises on other values once a line
  passes test/with_json.py:17: a number, bool or null makes `line in structure[chapter]`
  raise `TypeError` at line 21; a string or list containing the line makes
  `structure[chapter].get` raise `AttributeError` at line 22. Those errors are not
  modelled.
- WithJson.ReassignInChapters visits the chapters in an unspecified order,
  not Python's insertion order. Each visit changes nothing, so the result is
  the same.
- Text appended to a pdf_pages dictionary stored nowhere is kept in the arena
  but never observed. The key-based description drops it.
- The arenas and heaps are values passed to and returned from the methods, not
  objects updated in place. Aliasing is modelled by the references they hold.
- PagesStore.LineStore: the writes of the subsection branch (pdf_pages_reading.py:90-93) are not
  written out, because every subsection line is taken by the section branch first and the branch is
  proved unreachable. `PagesOutline.Step` still describes that branch as the code has it.
