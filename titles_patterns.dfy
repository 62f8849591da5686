/**
  The heading patterns of non_json.py, applied with `re.match` (anchored at
  the start, case-sensitive) to a stripped line:
    chapter     `Глава\s+(\d+)\s+(.+)`        (non_json.py:24)
    section     `(\d+\.\d+)\s+(.+)`           (non_json.py:36)
    subsection  `(\d+\.\d+\.\d+)\s+(.+)`      (non_json.py:37)
  No digit run of these patterns can be shortened to any use (a shortened run
  is followed by a digit, never by the space or dot the pattern needs next),
  so only the final `\s+(.+)` ever backtracks.
*/
module TitlesPatterns {
  import opened Wrappers
  import opened Chars
  import opened Text
  import opened Numbering
  import opened Outline

  /**
    `(.+)` after a `\s+` that keeps `k` of the whitespace characters from `e`,
    then `k - 1`, and so on: the first split that leaves `.+` a character
    other than a newline.
  */
  function RestAfter(line: string, e: nat, k: nat): (r: Option<string>)
    requires e + k <= |line|
    ensures r.Some? ==> |r.value| > 0 && '\n' !in r.value
    decreases k
  {
    if k == 0 then None
    else if e + k < |line| && line[e + k] != '\n' then
      var n := Run(line, e + k, NotNewline);
      var rest := line[e + k..e + k + n];
      assert forall j :: 0 <= j < n ==> rest[j] == line[e + k + j];
      Some(rest)
    else RestAfter(line, e, k - 1)
  }

  /** `\s+(.+)` from `e`: group `(.+)`. */
  function SpacedRest(line: string, e: nat): Option<string>
    requires e <= |line|
  {
    RestAfter(line, e, Run(line, e, Space))
  }

  /** On a line with no whitespace at its end, `\s+(.+)` takes the greedy whitespace run and everything up to a newline. */
  lemma SpacedRestOfStripped(line: string, e: nat)
    requires e <= |line| && NoOuterSpace(line) && Run(line, e, Space) > 0
    ensures var t := e + Run(line, e, Space);
      t < |line| && SpacedRest(line, e) == Some(line[t..t + Run(line, t, NotNewline)])
  {
  }

  /** non_json.py:24: the chapter number and group 2. */
  function ChapterTitleMatch(line: string): Option<Heading> {
    if !(Marker <= line) then None
    else
      var w := Run(line, |Marker|, Space);
      var q := |Marker| + w;
      var d := Run(line, q, Digit);
      if w == 0 || d == 0 then None
      else
        match SpacedRest(line, q + d)
        case None => None
        case Some(rest) => Some(Heading(line[q..q + d], rest))
  }

  /** `(\d+(\.\d+){dots})\s+(.+)`: non_json.py:36 (one dot) and 37 (two dots). */
  function NumberedTitleMatch(line: string, dots: nat): (r: Option<Heading>)
    ensures r.Some? ==> NumberPrefixEnd(line, dots).Some?
  {
    match NumberPrefixEnd(line, dots)
    case None => None
    case Some(e) =>
      match SpacedRest(line, e)
      case None => None
      case Some(rest) => Some(Heading(line[..e], rest))
  }

  function SectionTitleMatch(line: string): Option<Heading> {
    NumberedTitleMatch(line, 1)
  }

  function SubsectionTitleMatch(line: string): Option<Heading> {
    NumberedTitleMatch(line, 2)
  }

  /** Group 1 of a numbered heading is a number with `dots` dots. */
  lemma TitleNumberIsDotted(line: string, dots: nat)
    ensures NumberedTitleMatch(line, dots).Some? ==> IsDottedNumber(NumberedTitleMatch(line, dots).value.number, dots)
  {
    NumberPrefixIsNumber(line, dots);
  }

  /**
    `(\d+\.\d+)\s+` never matches an `n.n.n` line: its number stops at the
    second dot, where `\s+` finds no whitespace (non_json.py:36-37).  So every
    subsection line reaches the subsection branch (non_json.py:48).
  */
  lemma SubsectionIsNotSection(line: string)
    requires SubsectionTitleMatch(line).Some?
    ensures SectionTitleMatch(line).None?
  {
    NumberPrefixFewerDots(line, 1);
    var e := NumberPrefixEnd(line, 1).value;
    assert Run(line, e, Space) == 0;
  }

  /** A chapter heading starts with a letter, so it is no numbered heading. */
  lemma ChapterIsNotNumbered(line: string)
    requires ChapterTitleMatch(line).Some?
    ensures SectionTitleMatch(line).None? && SubsectionTitleMatch(line).None?
  {
    assert line[0] == Marker[0];
  }

  /** A bare "Глава 3" has no title after the number and is no chapter heading (non_json.py:24). */
  lemma BareChapterRejected(line: string)
    requires line == "Глава 3"
    ensures ChapterTitleMatch(line).None?
  {
    assert Marker <= line;
    RunUnique(line, 5, Space, 1);
    RunUnique(line, 6, Digit, 1);
    RunUnique(line, 7, Space, 0);
  }

  /** The match is case-sensitive: "ГЛАВА 3 Итоги" is no chapter heading. */
  lemma UpperCaseChapterRejected(line: string)
    requires line == "ГЛАВА 3 Итоги"
    ensures ChapterTitleMatch(line).None?
  {
    assert line[1] != Marker[1];
  }

  /** "Глава 3 Итоги" is chapter "3" with title "Итоги". */
  lemma ChapterTitleExample(line: string)
    requires line == "Глава 3 Итоги"
    ensures ChapterTitleMatch(line) == Some(Heading("3", "Итоги"))
  {
    assert Marker <= line;
    RunUnique(line, 5, Space, 1);
    RunUnique(line, 6, Digit, 1);
    RunUnique(line, 7, Space, 1);
    RunUnique(line, 8, NotNewline, 5);
    assert line[6..7] == "3" && line[8..13] == "Итоги";
  }
}
