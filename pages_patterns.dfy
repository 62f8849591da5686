/**
  The three heading patterns of pdf_pages_reading.py `extract_structure_from_text`,
  applied with `match` (anchored at the start, not at the end; case-sensitive)
  to a stripped line:
    chapter     `Глава\s\d+`         (pdf_pages_reading.py:70)
    section     `\d+\.\s*\w+`        (pdf_pages_reading.py:71)
    subsection  `\d+\.\d+\.\s*\w+`   (pdf_pages_reading.py:72)
  None of them backtracks to any use: a shorter digit run is followed by a
  digit and a shorter whitespace run by whitespace, never by the `.` or the
  word character the pattern needs next.
*/
module PagesPatterns {
  import opened Chars
  import opened Text
  import opened Outline

  /** `Глава\s\d+`: the marker, one whitespace character and a digit. */
  predicate IsChapterLine(line: string) {
    Marker <= line && |line| > |Marker| + 1 && IsSpace(line[|Marker|]) && IsDigit(line[|Marker| + 1])
  }

  /** `\.\s*\w+` from index `i`. */
  predicate DotThenWord(line: string, i: nat)
    requires i <= |line|
  {
    i < |line| && line[i] == '.' && i + 1 + Run(line, i + 1, Space) < |line| && IsWord(line[i + 1 + Run(line, i + 1, Space)])
  }

  /** `\d+\.\s*\w+` */
  predicate IsSectionLine(line: string) {
    var d := Run(line, 0, Digit);
    d > 0 && DotThenWord(line, d)
  }

  /** `\d+\.\d+\.\s*\w+` */
  predicate IsSubsectionLine(line: string) {
    var d := Run(line, 0, Digit);
    && d > 0 && d < |line| && line[d] == '.'
    && Run(line, d + 1, Digit) > 0 && DotThenWord(line, d + 1 + Run(line, d + 1, Digit))
  }

  /** Neither heading test accepts the line: it is body text. */
  predicate IsBodyLine(line: string) {
    !IsChapterLine(line) && !IsSectionLine(line) && !IsSubsectionLine(line)
  }

  /**
    Every subsection line is a section line: after `\d+\.` the subsection's
    second number starts with a digit, which `\s*` leaves alone and `\w+`
    accepts.  Since the section test comes first (pdf_pages_reading.py:84, 90),
    the subsection branch is never taken.
  */
  lemma SubsectionLineIsSectionLine(line: string)
    ensures IsSubsectionLine(line) ==> IsSectionLine(line)
  {
    var d := Run(line, 0, Digit);
    if IsSubsectionLine(line) {
      assert IsDigit(line[d + 1]);
      SpaceIsNeitherDigitNorWord(line[d + 1]);
      assert Run(line, d + 1, Space) == 0;
      DigitIsWord(line[d + 1]);
    }
  }

  /** A chapter line starts with a letter, so no section or subsection test sees it. */
  lemma ChapterLineIsNoSectionLine(line: string)
    requires IsChapterLine(line)
    ensures !IsSectionLine(line) && !IsSubsectionLine(line)
  {
    assert line[0] == Marker[0];
    assert Run(line, 0, Digit) == 0;
  }

  /** "Глава 1" is a chapter line; "Глава1" and "глава 1" are not. */
  lemma ChapterLineExamples()
    ensures IsChapterLine("Глава 1")
    ensures !IsChapterLine("Глава1")
    ensures !IsChapterLine("глава 1")
  {
    assert Marker <= "Глава 1";
    assert "глава 1"[0] != Marker[0];
  }

  /** "1. Введение" is a section line. */
  lemma SectionLineExample(line: string)
    requires line == "1. Введение"
    ensures IsSectionLine(line)
  {
    RunUnique(line, 0, Digit, 1);
    RunUnique(line, 2, Space, 1);
  }

  /** "1 Введение" has no dot after its number and is no section line. */
  lemma SectionLineNeedsDot(line: string)
    requires line == "1 Введение"
    ensures !IsSectionLine(line)
  {
    RunUnique(line, 0, Digit, 1);
  }
}
