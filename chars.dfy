/**
  Character classes of Python's `re` module and of `str.strip()`, written as
  predicates.  `IsSpace` is the set that `str.isspace()` and the Unicode `\s`
  class accept.  `IsDigit` (the `\d` class) and `IsWord` (the `\w` class) cover
  the ASCII forms and a few Unicode blocks; what the parsers rely on is only the
  relations proved at the end (`\d` inside `\w`, `\s` disjoint from both).
*/
module Chars {

  /** `\s` and `str.isspace()` */
  predicate IsSpace(c: char) {
    || c == ' '
    || '\t' <= c <= '\r'                    // \t \n \v \f \r
    || '\U{1C}' <= c <= '\U{1F}'            // file, group, record and unit separators
    || c == '\U{85}' || c == '\U{A0}' || c == '\U{1680}'
    || '\U{2000}' <= c <= '\U{200A}'
    || c == '\U{2028}' || c == '\U{2029}' || c == '\U{202F}' || c == '\U{205F}' || c == '\U{3000}'
  }

  /** `\d`: decimal digits (ASCII, Arabic-Indic, extended Arabic-Indic, Devanagari, full-width) */
  predicate IsDigit(c: char) {
    || '0' <= c <= '9'
    || '\U{660}' <= c <= '\U{669}'
    || '\U{6F0}' <= c <= '\U{6F9}'
    || '\U{966}' <= c <= '\U{96F}'
    || '\U{FF10}' <= c <= '\U{FF19}'
  }

  /** letters: ASCII, Latin-1 and the Cyrillic block (without its combining marks) */
  predicate IsLetter(c: char) {
    || 'A' <= c <= 'Z' || 'a' <= c <= 'z'
    || '\U{C0}' <= c <= '\U{D6}' || '\U{D8}' <= c <= '\U{F6}' || '\U{F8}' <= c <= '\U{FF}'
    || '\U{400}' <= c <= '\U{481}' || '\U{48A}' <= c <= '\U{4FF}'
  }

  /** `\w`: digits, letters and the underscore */
  predicate IsWord(c: char) {
    IsDigit(c) || IsLetter(c) || c == '_'
  }

  /** the simple lower-case mapping on ASCII and on the basic Cyrillic alphabet */
  function Lower(c: char): (l: char)
    ensures 'А' <= c <= 'Я' ==> 'а' <= l <= 'я'
  {
    if 'A' <= c <= 'Z' then (c as int + 32) as char
    else if 'А' <= c <= 'Я' then (c as int + 32) as char
    else if '\U{400}' <= c <= '\U{40F}' then (c as int + 80) as char
    else c
  }

  /**
    Whether text character `c` matches pattern character `p` under
    `re.IGNORECASE`: equal lower-case forms, or the one extra equivalence the
    Cyrillic letters of the chapter marker have (U+1C80, the rounded small ve,
    upper-cases to the same letter as `в`).
  */
  predicate MatchesIgnoringCase(c: char, p: char) {
    Lower(c) == Lower(p) || (Lower(p) == 'в' && c == '\U{1C80}')
  }

  lemma DigitIsWord(c: char)
    ensures IsDigit(c) ==> IsWord(c)
  {}

  lemma SpaceIsNeitherDigitNorWord(c: char)
    ensures IsSpace(c) ==> !IsDigit(c) && !IsWord(c)
  {}
}
