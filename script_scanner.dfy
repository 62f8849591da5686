/**
  The line scanner of Script.py `extract_structure_from_pdf` (Script.py:32-106),
  over the list of lines the extracted text was split into.

  The scanner reads every line through `clean_text`, so its specification,
  `Scan`, is written over the cleaned lines: a function of the line index,
  one loop iteration per `Step`.  `ExtractStructureFromLines` is the loop
  itself, over the raw lines, with its cursor variables and look-ahead loops,
  proved to compute `Scan` of the cleaned lines.
*/
module ScriptScanner {
  import opened Wrappers
  import opened Text
  import opened CleanText
  import opened Numbering
  import opened ScriptPatterns
  import opened Outline

  /** `current_chapter` and `current_section` (Script.py:16-17): keys, not references. */
  datatype Cursor = Cursor(chapter: Option<string>, section: Option<string>)

  datatype ScanState = ScanState(structure: Structure, cursor: Cursor)

  const Start: ScanState := ScanState(map[], Cursor(None, None))

  /** The cursor names entries that exist, so the subscripts at Script.py:79 and 100 never fail. */
  predicate CursorValid(st: ScanState) {
    && (st.cursor.chapter.Some? ==> st.cursor.chapter.value in st.structure)
    && (st.cursor.section.Some? ==>
          st.cursor.chapter.Some? && st.cursor.section.value in st.structure[st.cursor.chapter.value].sections)
  }

  /** Every line through `clean_text` (Script.py:36, 52, 73, 95). */
  function CleanAll(lines: seq<string>): (cleaned: seq<string>)
    ensures |cleaned| == |lines|
    ensures forall k :: 0 <= k < |lines| ==> cleaned[k] == Clean(lines[k])
  {
    seq(|lines|, k requires 0 <= k < |lines| => Clean(lines[k]))
  }

  /** The two look-ahead loops: after a chapter or section heading (Script.py:50-56, 71-78), after a subsection heading (Script.py:94-99). */
  datatype Absorb = HeadingTitle | SubsectionTitle

  /** The cleaned line at which a look-ahead loop stops without consuming it (Script.py:53, 74-75, 96). */
  predicate EndsTitle(kind: Absorb, next: string) {
    || next == ""
    || if kind.HeadingTitle? then ChapterStart(next) || SectionStart(next) else NumberEnd(next, 2).Some?
  }

  /** The index where a look-ahead loop started at `i` stops: the first line that ends the title, or the end. */
  function TitleEnd(cleaned: seq<string>, i: nat, kind: Absorb): (j: nat)
    requires i <= |cleaned|
    ensures i <= j <= |cleaned|
    decreases |cleaned| - i
  {
    if i == |cleaned| || EndsTitle(kind, cleaned[i]) then i else TitleEnd(cleaned, i + 1, kind)
  }

  /** A look-ahead loop absorbs every line before `TitleEnd` and stops at the first line that ends the title. */
  lemma {:induction false} TitleEndIsFirstStop(cleaned: seq<string>, i: nat, kind: Absorb)
    requires i <= |cleaned|
    ensures forall k :: i <= k < TitleEnd(cleaned, i, kind) ==> !EndsTitle(kind, cleaned[k])
    ensures TitleEnd(cleaned, i, kind) == |cleaned| || EndsTitle(kind, cleaned[TitleEnd(cleaned, i, kind)])
    decreases |cleaned| - i
  {
    if i < |cleaned| && !EndsTitle(kind, cleaned[i]) {
      TitleEndIsFirstStop(cleaned, i + 1, kind);
    }
  }

  /** `title` after `title += " " + next_line` for every line `cleaned[i..j]` a look-ahead loop absorbs. */
  function Absorbed(title: string, cleaned: seq<string>, i: nat, j: nat): string
    requires i <= j <= |cleaned|
    decreases j - i
  {
    if i == j then title else Absorbed(title, cleaned, i, j - 1) + (" " + cleaned[j - 1])
  }

  /** A chapter heading at `i` (Script.py:43-62): replace the chapter, point the cursor at it. */
  function ChapterStep(cleaned: seq<string>, i: nat, st: ScanState, h: Heading): (r: (ScanState, nat))
    requires i < |cleaned|
    ensures i < r.1 <= |cleaned|
    ensures CursorValid(r.0)
  {
    var j := TitleEnd(cleaned, i + 1, HeadingTitle);
    var title := Absorbed(Strip(h.rest), cleaned, i + 1, j);
    (ScanState(st.structure[h.number := Chapter(Strip(title), map[])], Cursor(Some(h.number), None)), j)
  }

  /** A section heading at `i` under the current chapter (Script.py:64-83). */
  function SectionStep(cleaned: seq<string>, i: nat, st: ScanState, h: Heading): (r: (ScanState, nat))
    requires i < |cleaned| && CursorValid(st) && st.cursor.chapter.Some?
    ensures i < r.1 <= |cleaned|
    ensures CursorValid(r.0)
  {
    var j := TitleEnd(cleaned, i + 1, HeadingTitle);
    (ScanState(PutSection(st.structure, st.cursor.chapter.value, h.number, Strip(Strip(h.rest))),
               Cursor(st.cursor.chapter, Some(h.number))), j)
  }

  /** A subsection heading at `i` under the current section (Script.py:87-104). */
  function SubsectionStep(cleaned: seq<string>, i: nat, st: ScanState, h: Heading): (r: (ScanState, nat))
    requires i < |cleaned| && CursorValid(st) && st.cursor.chapter.Some? && st.cursor.section.Some?
    ensures i < r.1 <= |cleaned|
    ensures CursorValid(r.0)
  {
    var j := TitleEnd(cleaned, i + 1, SubsectionTitle);
    var title := Absorbed(Strip(h.rest), cleaned, i + 1, j);
    (ScanState(PutSubsection(st.structure, st.cursor.chapter.value, st.cursor.section.value, h.number, Strip(title)),
               st.cursor), j)
  }

  /**
    One iteration of the outer loop at index `i` (Script.py:35-106): the new
    state and the index the next iteration starts from.
  */
  function Step(cleaned: seq<string>, i: nat, st: ScanState): (r: (ScanState, nat))
    requires i < |cleaned| && CursorValid(st)
    ensures i < r.1 <= |cleaned|
    ensures CursorValid(r.0)
  {
    var line := cleaned[i];
    if line == "" then
      (st, i + 1)
    else if ChapterMatch(line).Some? then
      ChapterStep(cleaned, i, st, ChapterMatch(line).value)
    else if SectionMatch(line).Some? && st.cursor.chapter.Some? then
      SectionStep(cleaned, i, st, SectionMatch(line).value)
    else if SubsectionMatch(line).Some? && st.cursor.chapter.Some? && st.cursor.section.Some? then
      SubsectionStep(cleaned, i, st, SubsectionMatch(line).value)
    else
      (st, i + 1)
  }

  /** The outer loop from index `i` on. */
  function Scan(cleaned: seq<string>, i: nat, st: ScanState): (r: ScanState)
    requires i <= |cleaned| && CursorValid(st)
    ensures CursorValid(r)
    decreases |cleaned| - i
  {
    if i == |cleaned| then st
    else
      var (next, j) := Step(cleaned, i, st);
      Scan(cleaned, j, next)
  }

  /** The structure `extract_structure_from_pdf` returns for these lines. */
  function ExtractStructure(lines: seq<string>): Structure {
    Scan(CleanAll(lines), 0, Start).structure
  }

  /**
    A look-ahead loop (Script.py:50-56, 71-78, 94-99): starting at `start`,
    appends `' ' + next_line` to `title` for every line up to the first one
    that ends the title, and returns the index of that line.
  */
  method AbsorbTitle(lines: seq<string>, start: nat, kind: Absorb, title: string) returns (next: nat, absorbed: string)
    requires start <= |lines|
    ensures next == TitleEnd(CleanAll(lines), start, kind)
    ensures absorbed == Absorbed(title, CleanAll(lines), start, next)
  {
    next := start;
    absorbed := title;
    while next < |lines|
      invariant start <= next <= |lines|
      invariant TitleEnd(CleanAll(lines), next, kind) == TitleEnd(CleanAll(lines), start, kind)
      invariant absorbed == Absorbed(title, CleanAll(lines), start, next)
      decreases |lines| - next
    {
      var nextLine := Clean(lines[next]);
      if EndsTitle(kind, nextLine) {
        break;
      }
      assert Absorbed(title, CleanAll(lines), start, next + 1) == absorbed + (" " + nextLine);
      absorbed := absorbed + (" " + nextLine);
      next := next + 1;
    }
  }

  /**
    One pass of the outer loop body (Script.py:35-106) on the scanner's
    variables: `structure`, the cursor, and the chapter-title buffer.
  */
  method ScanLine(lines: seq<string>, i: nat, structure: Structure, chapter: Option<string>, section: Option<string>, chapterTitle: string)
    returns (next: nat, structure': Structure, chapter': Option<string>, section': Option<string>, chapterTitle': string)
    requires i < |lines| && CursorValid(ScanState(structure, Cursor(chapter, section)))
    ensures Step(CleanAll(lines), i, ScanState(structure, Cursor(chapter, section))) == (ScanState(structure', Cursor(chapter', section')), next)
  {
    ghost var before := ScanState(structure, Cursor(chapter, section));
    structure', chapter', section', chapterTitle' := structure, chapter, section, chapterTitle;
    var line := Clean(lines[i]);
    if line == "" {
      next := i + 1;
    } else if ChapterMatch(line).Some? {
      var h := ChapterMatch(line).value;
      next, chapterTitle' := AbsorbTitle(lines, i + 1, HeadingTitle, Strip(h.rest));
      chapter' := Some(h.number);
      section' := None;
      structure' := structure[h.number := Chapter(Strip(chapterTitle'), map[])];
      assert (ScanState(structure', Cursor(chapter', section')), next) == ChapterStep(CleanAll(lines), i, before, h);
    } else if SectionMatch(line).Some? && chapter.Some? {
      var h := SectionMatch(line).value;
      var sectionTitle := Strip(h.rest);
      // Script.py:77 appends the absorbed lines to the chapter's title variable, which is never read again.
      next, chapterTitle' := AbsorbTitle(lines, i + 1, HeadingTitle, chapterTitle);
      structure' := PutSection(structure, chapter.value, h.number, Strip(sectionTitle));
      section' := Some(h.number);
      assert (ScanState(structure', Cursor(chapter', section')), next) == SectionStep(CleanAll(lines), i, before, h);
    } else if SubsectionMatch(line).Some? && chapter.Some? && section.Some? {
      var h := SubsectionMatch(line).value;
      var subsectionTitle;
      next, subsectionTitle := AbsorbTitle(lines, i + 1, SubsectionTitle, Strip(h.rest));
      structure' := PutSubsection(structure, chapter.value, section.value, h.number, Strip(subsectionTitle));
      assert (ScanState(structure', Cursor(chapter', section')), next) == SubsectionStep(CleanAll(lines), i, before, h);
    } else {
      next := i + 1;
    }
  }

  /**
    Script.py:32-106: the scanning loop, with its cursor variables and its
    look-ahead loops, computes `ExtractStructure`.
  */
  method ExtractStructureFromLines(lines: seq<string>) returns (structure: Structure)
    ensures structure == ExtractStructure(lines)
  {
    structure := map[];
    var currentChapter: Option<string> := None;
    var currentSection: Option<string> := None;
    var chapterTitle := "";
    ghost var cleaned := CleanAll(lines);
    var i := 0;
    while i < |lines|
      invariant i <= |lines|
      invariant CursorValid(ScanState(structure, Cursor(currentChapter, currentSection)))
      invariant Scan(cleaned, i, ScanState(structure, Cursor(currentChapter, currentSection))) == Scan(cleaned, 0, Start)
      decreases |lines| - i
    {
      i, structure, currentChapter, currentSection, chapterTitle :=
        ScanLine(lines, i, structure, currentChapter, currentSection, chapterTitle);
    }
    assert Scan(cleaned, i, ScanState(structure, Cursor(currentChapter, currentSection))).structure == structure;
  }
}
