/**
  The heading patterns of Script.py, applied to a cleaned line:
    chapter     `^\s*Глава\s+(\d+)\s*(.*)`, case-insensitive   (Script.py:43)
    chapter     `^\s*Глава\s+\d+`, case-insensitive            (Script.py:53, 74)
    section     `^(\d+\.\d+)(?!\.)\s*(.*)`                     (Script.py:64)
    section     `^\d+\.\d+`                                    (Script.py:53, 75)
    subsection  `^(\d+\.\d+\.\d+)(?!\.)\s*(.*)`                (Script.py:87, 96)
  Each function returns what the regex engine returns, backtracking included.
*/
module ScriptPatterns {
  import opened Wrappers
  import opened Chars
  import opened Text
  import opened Numbering
  import opened Outline

  /** `line[p..]` starts with the marker, compared letter by letter ignoring case. */
  predicate MarkerAt(line: string, p: nat) {
    p + |Marker| <= |line| && forall j :: 0 <= j < |Marker| ==> MatchesIgnoringCase(line[p + j], Marker[j])
  }

  /**
    `^\s*Глава\s+\d+` under `re.IGNORECASE` (Script.py:53, 74): where the
    chapter number begins, if the line starts that way.
  */
  function ChapterNumberAt(line: string): (r: Option<nat>)
    ensures r.Some? ==> 0 < r.value < |line| && IsDigit(line[r.value]) && IsSpace(line[r.value - 1])
  {
    var p := Run(line, 0, Space);
    if MarkerAt(line, p) then
      var q := p + |Marker|;
      var w := Run(line, q, Space);
      if w > 0 && Run(line, q + w, Digit) > 0 then Some(q + w) else None
    else None
  }

  /** The look-ahead's chapter test, Script.py:53 and 74. */
  predicate ChapterStart(line: string) {
    ChapterNumberAt(line).Some?
  }

  /**
    `^\s*Глава\s+(\d+)\s*(.*)` under `re.IGNORECASE` (Script.py:43).  Since
    `\s*(.*)` matches anything, it matches exactly the lines the look-ahead
    test accepts; its number is a run of digits that the line's text contains
    right after the marker and whitespace.
  */
  function ChapterMatch(line: string): (r: Option<Heading>)
    ensures r.Some? <==> ChapterStart(line)
  {
    match ChapterNumberAt(line)
    case None => None
    case Some(q) => Some(ChapterHeadingAt(line, q))
  }

  /** Groups 1 and 2 of the chapter pattern, once the number is found to begin at `q`. */
  function ChapterHeadingAt(line: string, q: nat): Heading
    requires q <= |line|
  {
    var e := q + Run(line, q, Digit);
    var t := e + Run(line, e, Space);
    Heading(line[q..e], line[t..t + Run(line, t, NotNewline)])
  }

  /** A chapter number is a run of digits. */
  lemma ChapterNumberIsDigits(line: string)
    ensures ChapterMatch(line).Some? ==> IsDottedNumber(ChapterMatch(line).value.number, 0)
  {
    if ChapterNumberAt(line).Some? {
      DigitRunIsNumber(line, ChapterNumberAt(line).value);
    }
  }

  /** The digits from `q` on make a number without dots. */
  lemma DigitRunIsNumber(line: string, q: nat)
    requires q < |line| && IsDigit(line[q])
    ensures IsDottedNumber(ChapterHeadingAt(line, q).number, 0)
  {
    var e := q + Run(line, q, Digit);
    assert forall j :: q <= j < e ==> In(Digit, line[j]);
    DigitsAreNumber(line, q, e);
  }

  /**
    `^(\d+(\.\d+){dots})(?!\.)`: the end of group 1.  When the greedy number
    is followed by a dot, the engine backtracks one digit of the last run,
    if that run has a digit to spare (the character before its last digit is
    a digit too), so that the look-ahead sees a digit.
  */
  function NumberEnd(line: string, dots: nat): (r: Option<nat>)
    ensures r.Some? ==> 0 < r.value <= |line|
    ensures r.Some? ==> r.value == |line| || line[r.value] != '.'
  {
    match NumberPrefixEnd(line, dots)
    case None => None
    case Some(e) =>
      if e < |line| && line[e] == '.' then
        if e >= 2 && IsDigit(line[e - 2]) then Some(e - 1) else None
      else Some(e)
  }

  /** `^(\d+(\.\d+){dots})(?!\.)\s*(.*)`: group 1 and group 2. */
  function NumberedHeading(line: string, dots: nat): (r: Option<Heading>)
    ensures r.Some? <==> NumberEnd(line, dots).Some?
    ensures r.Some? ==> r.value.number <= line
  {
    match NumberEnd(line, dots)
    case None => None
    case Some(e) =>
      var t := e + Run(line, e, Space);
      Some(Heading(line[..e], line[t..t + Run(line, t, NotNewline)]))
  }

  /** Group 1 of a numbered heading is a number with `dots` dots, backtracked or not. */
  lemma HeadingNumberIsDotted(line: string, dots: nat)
    ensures NumberedHeading(line, dots).Some? ==> IsDottedNumber(NumberedHeading(line, dots).value.number, dots)
  {
    NumberPrefixIsNumber(line, dots);
    if NumberPrefixEnd(line, dots).Some? {
      var e := NumberPrefixEnd(line, dots).value;
      if e < |line| && line[e] == '.' && e >= 2 && IsDigit(line[e - 2]) {
        assert line[..e][..e - 1] == line[..e - 1];
      }
    }
  }

  /** Script.py:64. */
  function SectionMatch(line: string): Option<Heading> {
    NumberedHeading(line, 1)
  }

  /** Script.py:87; its group-1 part alone is the subsection look-ahead test of Script.py:96. */
  function SubsectionMatch(line: string): Option<Heading> {
    NumberedHeading(line, 2)
  }

  /** `^\d+\.\d+` without a look-ahead: the section test of Script.py:53 and 75. */
  predicate SectionStart(line: string) {
    NumberPrefixEnd(line, 1).Some?
  }

  /** Every section heading also passes the look-ahead's section test. */
  lemma SectionMatchStartsSection(line: string)
    ensures SectionMatch(line).Some? ==> SectionStart(line)
  {}

  /** A chapter line never starts with a digit, so it is never a section or subsection line. */
  lemma ChapterIsNotNumbered(line: string)
    requires ChapterStart(line)
    ensures !SectionStart(line) && SubsectionMatch(line).None?
  {
    var p := Run(line, 0, Space);
    assert Marker[0] == 'Г';
    assert MatchesIgnoringCase(line[p], 'Г');
  }

  /** The look-ahead at Script.py:64 backtracks: "12.34.5 X" is section "12.3" with title "4.5 X". */
  lemma SectionBacktracks(line: string)
    requires line == "12.34.5 X"
    ensures SectionMatch(line) == Some(Heading("12.3", "4.5 X"))
  {
    SectionBacktracksAt(line);
    RunUnique(line, 4, Space, 0);
    RunUnique(line, 4, NotNewline, 5);
    assert line[..4] == "12.3" && line[4..9] == "4.5 X";
  }

  /** The greedy number of "12.34.5 X" ends at 5, before the second dot; the engine gives its last digit back. */
  lemma SectionBacktracksAt(line: string)
    requires line == "12.34.5 X"
    ensures NumberPrefixEnd(line, 1) == Some(5) && NumberEnd(line, 1) == Some(4)
  {
    assert MatchFrom(line, 4, 0) == MatchFrom(line, 5, 0) == Some(5);
    assert MatchFrom(line, 1, 1) == MatchFrom(line, 2, 1) == MatchFrom(line, 4, 0);
  }

  /** ... while a one-digit last part leaves nothing to give back: "1.2.3 X" is no section. */
  lemma SectionRejectsSubsectionNumber(line: string)
    requires line == "1.2.3 X"
    ensures SectionMatch(line) == None
  {
    assert MatchFrom(line, 1, 1) == MatchFrom(line, 3, 0) == Some(3);
  }

  lemma SubsectionNumberExample(line: string)
    requires line == "1.2.3 X"
    ensures NumberPrefixEnd(line, 2) == Some(5)
  {
    assert MatchFrom(line, 3, 1) == MatchFrom(line, 5, 0) == Some(5);
    assert MatchFrom(line, 1, 2) == MatchFrom(line, 3, 1);
  }

  /** The same line is subsection "1.2.3" with title "X". */
  lemma SubsectionExample(line: string)
    requires line == "1.2.3 X"
    ensures SubsectionMatch(line) == Some(Heading("1.2.3", "X"))
  {
    SubsectionNumberExample(line);
    assert NumberEnd(line, 2) == Some(5);
    RunUnique(line, 5, Space, 1);
    RunUnique(line, 6, NotNewline, 1);
    assert line[..5] == "1.2.3" && line[6..7] == "X";
  }

  /** The case-insensitive marker: "ГЛАВА 2 Итоги" is chapter "2" with title "Итоги". */
  lemma ChapterExample(line: string)
    requires line == "ГЛАВА 2 Итоги"
    ensures ChapterMatch(line) == Some(Heading("2", "Итоги"))
  {
    ChapterExampleNumber(line);
    ChapterExampleGroups(line);
  }

  lemma ChapterExampleNumber(line: string)
    requires line == "ГЛАВА 2 Итоги"
    ensures ChapterNumberAt(line) == Some(6)
  {
    RunUnique(line, 0, Space, 0);
    assert MarkerAt(line, 0);
    RunUnique(line, 5, Space, 1);
    RunUnique(line, 6, Digit, 1);
  }

  lemma ChapterExampleGroups(line: string)
    requires line == "ГЛАВА 2 Итоги"
    ensures ChapterHeadingAt(line, 6) == Heading("2", "Итоги")
  {
    RunUnique(line, 6, Digit, 1);
    RunUnique(line, 7, Space, 1);
    RunUnique(line, 8, NotNewline, 5);
    assert line[6..7] == "2" && line[8..13] == "Итоги";
  }
}
