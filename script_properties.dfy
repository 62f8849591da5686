/**
  What the Script.py scanner guarantees, proved about its specification
  `Scan` (and so, through `ExtractStructureFromLines`, about the loop):
  how each kind of line changes the state, the shape of the keys, the lines
  that are dropped or swallowed, and that the outer loop visits each line at
  most once.
*/
module ScriptProperties {
  import opened Wrappers
  import opened Text
  import opened CleanText
  import opened Numbering
  import opened ScriptPatterns
  import opened ScriptScanner
  import opened Outline

  // ---------------------------------------------------------------------
  // One step of the outer loop, by the kind of line

  /**
    A chapter line (Script.py:43-61): the title is the rest of the line
    followed by the lines up to the first blank, chapter or section line,
    which is left for the next iteration; the chapter is stored with no
    sections, replacing an entry with the same number; the cursor moves to it
    with no section.
  */
  lemma ChapterLineStep(cleaned: seq<string>, i: nat, st: ScanState)
    requires i < |cleaned| && CursorValid(st) && ChapterStart(cleaned[i])
    ensures var h := ChapterMatch(cleaned[i]).value;
      var (st', j) := Step(cleaned, i, st);
      && (forall k :: i < k < j ==> cleaned[k] != "" && !ChapterStart(cleaned[k]) && !SectionStart(cleaned[k]))
      && (j == |cleaned| || cleaned[j] == "" || ChapterStart(cleaned[j]) || SectionStart(cleaned[j]))
      && st'.structure.Keys == st.structure.Keys + {h.number}
      && (forall c :: c in st.structure && c != h.number ==> st'.structure[c] == st.structure[c])
      && st'.structure[h.number] == Chapter(Strip(Absorbed(Strip(h.rest), cleaned, i + 1, j)), map[])
      && st'.cursor == Cursor(Some(h.number), None)
  {
    var h := ChapterMatch(cleaned[i]).value;
    assert Step(cleaned, i, st) == ChapterStep(cleaned, i, st, h);
    TitleEndIsFirstStop(cleaned, i + 1, HeadingTitle);
  }

  /**
    A section line under a chapter (Script.py:64-84): only that chapter's
    sections change, gaining the section with no subsections; its title is
    the rest of its own line, whatever follows; the cursor moves to it.
  */
  lemma SectionLineStep(cleaned: seq<string>, i: nat, st: ScanState)
    requires i < |cleaned| && CursorValid(st) && cleaned[i] != "" && !ChapterStart(cleaned[i])
    requires SectionMatch(cleaned[i]).Some? && st.cursor.chapter.Some?
    ensures var h := SectionMatch(cleaned[i]).value;
      var c := st.cursor.chapter.value;
      var (st', j) := Step(cleaned, i, st);
      && (forall k :: i < k < j ==> cleaned[k] != "" && !ChapterStart(cleaned[k]) && !SectionStart(cleaned[k]))
      && (j == |cleaned| || cleaned[j] == "" || ChapterStart(cleaned[j]) || SectionStart(cleaned[j]))
      && st'.structure.Keys == st.structure.Keys
      && (forall k :: k in st.structure && k != c ==> st'.structure[k] == st.structure[k])
      && st'.structure[c].title == st.structure[c].title
      && st'.structure[c].sections == st.structure[c].sections[h.number := Section(Strip(h.rest), map[])]
      && st'.cursor == Cursor(Some(c), Some(h.number))
  {
    TitleEndIsFirstStop(cleaned, i + 1, HeadingTitle);
    StripIdempotent(SectionMatch(cleaned[i]).value.rest);
  }

  /**
    A subsection line under a section (Script.py:87-104): only the current
    section's subsections change; the title absorbs every following line up to
    the first blank or subsection line; the cursor stays.
  */
  lemma SubsectionLineStep(cleaned: seq<string>, i: nat, st: ScanState)
    requires i < |cleaned| && CursorValid(st) && cleaned[i] != "" && !ChapterStart(cleaned[i])
    requires !(SectionMatch(cleaned[i]).Some? && st.cursor.chapter.Some?)
    requires SubsectionMatch(cleaned[i]).Some? && st.cursor.chapter.Some? && st.cursor.section.Some?
    ensures var h := SubsectionMatch(cleaned[i]).value;
      var c := st.cursor.chapter.value;
      var s := st.cursor.section.value;
      var (st', j) := Step(cleaned, i, st);
      && (forall k :: i < k < j ==> cleaned[k] != "" && SubsectionMatch(cleaned[k]).None?)
      && (j == |cleaned| || cleaned[j] == "" || SubsectionMatch(cleaned[j]).Some?)
      && st'.structure.Keys == st.structure.Keys
      && (forall k :: k in st.structure && k != c ==> st'.structure[k] == st.structure[k])
      && st'.structure[c].title == st.structure[c].title
      && st'.structure[c].sections.Keys == st.structure[c].sections.Keys
      && (forall k :: k in st.structure[c].sections && k != s ==> st'.structure[c].sections[k] == st.structure[c].sections[k])
      && st'.structure[c].sections[s].title == st.structure[c].sections[s].title
      && st'.structure[c].sections[s].subsections
         == st.structure[c].sections[s].subsections[h.number := Subsection(Strip(Absorbed(Strip(h.rest), cleaned, i + 1, j)))]
      && st'.cursor == st.cursor
  {
    TitleEndIsFirstStop(cleaned, i + 1, SubsectionTitle);
  }

  /**
    Every other line (Script.py:38-40, 106): blank lines, lines matching no
    pattern, sections without a chapter and subsections without a section
    change nothing, and the loop moves to the next line.
  */
  lemma OtherLineStep(cleaned: seq<string>, i: nat, st: ScanState)
    requires i < |cleaned| && CursorValid(st) && !ChapterStart(cleaned[i])
    requires !(SectionMatch(cleaned[i]).Some? && st.cursor.chapter.Some?)
    requires !(SubsectionMatch(cleaned[i]).Some? && st.cursor.chapter.Some? && st.cursor.section.Some?)
    ensures Step(cleaned, i, st) == (st, i + 1)
  {
  }

  // ---------------------------------------------------------------------
  // Dropped lines

  /** With no current chapter, only a chapter line changes anything: an orphan section or subsection line creates nothing (Script.py:65, 88). */
  lemma NoChapterOnlyChapterLines(cleaned: seq<string>, i: nat, st: ScanState)
    requires i < |cleaned| && CursorValid(st) && st.cursor.chapter.None? && !ChapterStart(cleaned[i])
    ensures Step(cleaned, i, st) == (st, i + 1)
  {
    OtherLineStep(cleaned, i, st);
  }

  /**
    After a chapter line the section cursor is empty (Script.py:58), so a
    subsection line that is not also a section line is dropped until the next
    section line (Script.py:88).
  */
  lemma SubsectionWithoutSectionDropped(cleaned: seq<string>, i: nat, st: ScanState)
    requires i < |cleaned| && CursorValid(st) && st.cursor.section.None?
    requires SubsectionMatch(cleaned[i]).Some? && SectionMatch(cleaned[i]).None?
    ensures Step(cleaned, i, st) == (st, i + 1)
  {
    if ChapterStart(cleaned[i]) {
      ChapterIsNotNumbered(cleaned[i]);
    }
    OtherLineStep(cleaned, i, st);
  }

  /** The whole scan from `i` on with no current chapter and no chapter line ahead changes nothing. */
  lemma {:induction false} NoChapterScan(cleaned: seq<string>, i: nat, st: ScanState)
    requires i <= |cleaned| && CursorValid(st) && st.cursor.chapter.None?
    requires forall k :: i <= k < |cleaned| ==> !ChapterStart(cleaned[k])
    ensures Scan(cleaned, i, st) == st
    decreases |cleaned| - i
  {
    if i < |cleaned| {
      NoChapterOnlyChapterLines(cleaned, i, st);
      NoChapterScan(cleaned, i + 1, st);
    }
  }

  /** Text without a chapter line gives an empty structure: every section and subsection in it is an orphan. */
  lemma NoChapterNoStructure(lines: seq<string>)
    requires forall k :: 0 <= k < |lines| ==> !ChapterStart(Clean(lines[k]))
    ensures ExtractStructure(lines) == map[]
  {
    NoChapterScan(CleanAll(lines), 0, Start);
  }

  // ---------------------------------------------------------------------
  // Swallowed lines

  /**
    Subsection absorption stops only at a blank or subsection line
    (Script.py:96): a chapter line right after a subsection heading becomes
    part of that subsection's title and is never examined by the outer loop,
    so that chapter is never created from it.
  */
  lemma SubsectionSwallowsChapter(cleaned: seq<string>, i: nat, st: ScanState)
    requires i + 1 < |cleaned| && CursorValid(st) && cleaned[i] != "" && !ChapterStart(cleaned[i])
    requires !(SectionMatch(cleaned[i]).Some? && st.cursor.chapter.Some?)
    requires SubsectionMatch(cleaned[i]).Some? && st.cursor.chapter.Some? && st.cursor.section.Some?
    requires ChapterStart(cleaned[i + 1])
    ensures var h := SubsectionMatch(cleaned[i]).value;
      var c := st.cursor.chapter.value;
      var s := st.cursor.section.value;
      var (st', j) := Step(cleaned, i, st);
      var title := Absorbed(Strip(h.rest), cleaned, i + 1, j);
      && j > i + 1
      && c in st'.structure && s in st'.structure[c].sections && h.number in st'.structure[c].sections[s].subsections
      && st'.structure[c].sections[s].subsections[h.number] == Subsection(Strip(title))
      && Strip(h.rest) + " " + cleaned[i + 1] <= title
  {
    ChapterIsNotNumbered(cleaned[i + 1]);
    SubsectionLineStep(cleaned, i, st);
    var j := Step(cleaned, i, st).1;
    AbsorbedStartsWith(Strip(SubsectionMatch(cleaned[i]).value.rest), cleaned, i + 1, j);
  }

  /** An absorbed title begins with the heading's own text, a space and the first absorbed line. */
  lemma {:induction false} AbsorbedStartsWith(title: string, cleaned: seq<string>, i: nat, j: nat)
    requires i < j <= |cleaned|
    ensures title + " " + cleaned[i] <= Absorbed(title, cleaned, i, j)
    decreases j - i
  {
    if j > i + 1 {
      AbsorbedStartsWith(title, cleaned, i, j - 1);
    } else {
      assert Absorbed(title, cleaned, i, j) == title + (" " + cleaned[i]);
    }
  }

  /** A chapter or section heading's absorption, by contrast, stops at a chapter line and leaves it to the outer loop (Script.py:53, 74). */
  lemma HeadingStopsAtChapter(cleaned: seq<string>, i: nat, st: ScanState)
    requires i + 1 < |cleaned| && CursorValid(st) && ChapterStart(cleaned[i + 1])
    requires ChapterStart(cleaned[i]) || (cleaned[i] != "" && SectionMatch(cleaned[i]).Some? && st.cursor.chapter.Some?)
    ensures Step(cleaned, i, st).1 == i + 1
  {
  }

  // ---------------------------------------------------------------------
  // The outer loop's visits

  /** The indices at which the outer loop (Script.py:34) runs its body, from `i` on. */
  function Visits(cleaned: seq<string>, i: nat, st: ScanState): seq<nat>
    requires i <= |cleaned| && CursorValid(st)
    decreases |cleaned| - i
  {
    if i == |cleaned| then []
    else
      var (next, j) := Step(cleaned, i, st);
      [i] + Visits(cleaned, j, next)
  }

  /** Every visit is in range and later than the one before: no line is examined twice, and the loop ends. */
  lemma {:induction false} VisitsIncrease(cleaned: seq<string>, i: nat, st: ScanState)
    requires i <= |cleaned| && CursorValid(st)
    ensures var v := Visits(cleaned, i, st);
      && (forall a :: 0 <= a < |v| ==> i <= v[a] < |cleaned|)
      && (forall a, b :: 0 <= a < b < |v| ==> v[a] < v[b])
      && (i < |cleaned| ==> |v| > 0 && v[0] == i)
    decreases |cleaned| - i
  {
    if i < |cleaned| {
      var (next, j) := Step(cleaned, i, st);
      VisitsIncrease(cleaned, j, next);
      var rest := Visits(cleaned, j, next);
      assert Visits(cleaned, i, st) == [i] + rest;
    }
  }

  // ---------------------------------------------------------------------
  // Key shapes (Script.py:43-45, 64-66, 87-89)

  predicate SectionKeysValid(section: Section) {
    forall m :: m in section.subsections ==> IsDottedNumber(m, 2)
  }

  predicate ChapterKeysValid(chapter: Chapter) {
    forall k :: k in chapter.sections ==> IsDottedNumber(k, 1) && SectionKeysValid(chapter.sections[k])
  }

  /** Chapter keys are digit strings, section keys `d.d`, subsection keys `d.d.d`. */
  predicate KeysValid(structure: Structure) {
    forall c :: c in structure ==> IsDottedNumber(c, 0) && ChapterKeysValid(structure[c])
  }

  lemma ChapterStepKeysValid(cleaned: seq<string>, i: nat, st: ScanState)
    requires i < |cleaned| && CursorValid(st) && KeysValid(st.structure) && ChapterStart(cleaned[i])
    ensures KeysValid(Step(cleaned, i, st).0.structure)
  {
    ChapterNumberIsDigits(cleaned[i]);
  }

  lemma SectionStepKeysValid(cleaned: seq<string>, i: nat, st: ScanState)
    requires i < |cleaned| && CursorValid(st) && KeysValid(st.structure) && cleaned[i] != "" && !ChapterStart(cleaned[i])
    requires SectionMatch(cleaned[i]).Some? && st.cursor.chapter.Some?
    ensures KeysValid(Step(cleaned, i, st).0.structure)
  {
    HeadingNumberIsDotted(cleaned[i], 1);
    SectionLineStep(cleaned, i, st);
    var c := st.cursor.chapter.value;
    assert ChapterKeysValid(Step(cleaned, i, st).0.structure[c]);
  }

  lemma SubsectionStepKeysValid(cleaned: seq<string>, i: nat, st: ScanState)
    requires i < |cleaned| && CursorValid(st) && KeysValid(st.structure) && cleaned[i] != "" && !ChapterStart(cleaned[i])
    requires !(SectionMatch(cleaned[i]).Some? && st.cursor.chapter.Some?)
    requires SubsectionMatch(cleaned[i]).Some? && st.cursor.chapter.Some? && st.cursor.section.Some?
    ensures KeysValid(Step(cleaned, i, st).0.structure)
  {
    HeadingNumberIsDotted(cleaned[i], 2);
    SubsectionLineStep(cleaned, i, st);
    var c, s := st.cursor.chapter.value, st.cursor.section.value;
    var r := Step(cleaned, i, st).0.structure;
    assert SectionKeysValid(r[c].sections[s]);
    assert ChapterKeysValid(r[c]);
  }

  /** Every step keeps the keys well-formed. */
  lemma StepKeysValid(cleaned: seq<string>, i: nat, st: ScanState)
    requires i < |cleaned| && CursorValid(st) && KeysValid(st.structure)
    ensures KeysValid(Step(cleaned, i, st).0.structure)
  {
    var line := cleaned[i];
    if line == "" {
    } else if ChapterStart(line) {
      ChapterStepKeysValid(cleaned, i, st);
    } else if SectionMatch(line).Some? && st.cursor.chapter.Some? {
      SectionStepKeysValid(cleaned, i, st);
    } else if SubsectionMatch(line).Some? && st.cursor.chapter.Some? && st.cursor.section.Some? {
      SubsectionStepKeysValid(cleaned, i, st);
    }
  }

  lemma {:induction false} ScanKeysValid(cleaned: seq<string>, i: nat, st: ScanState)
    requires i <= |cleaned| && CursorValid(st) && KeysValid(st.structure)
    ensures KeysValid(Scan(cleaned, i, st).structure)
    decreases |cleaned| - i
  {
    if i < |cleaned| {
      StepKeysValid(cleaned, i, st);
      var (next, j) := Step(cleaned, i, st);
      ScanKeysValid(cleaned, j, next);
    }
  }

  /** Whatever the text, the keys of the outline are numbers of the right depth. */
  lemma ExtractKeysValid(lines: seq<string>)
    ensures KeysValid(ExtractStructure(lines))
  {
    ScanKeysValid(CleanAll(lines), 0, Start);
  }

  // ---------------------------------------------------------------------
  // Growth: no chapter is ever removed

  /** Chapters only accumulate: a chapter created once is in the final outline. */
  lemma {:induction false} ScanKeepsChapters(cleaned: seq<string>, i: nat, st: ScanState)
    requires i <= |cleaned| && CursorValid(st)
    ensures st.structure.Keys <= Scan(cleaned, i, st).structure.Keys
    decreases |cleaned| - i
  {
    if i < |cleaned| {
      var line := cleaned[i];
      if line != "" && ChapterStart(line) {
        ChapterLineStep(cleaned, i, st);
      } else if line != "" && SectionMatch(line).Some? && st.cursor.chapter.Some? {
        SectionLineStep(cleaned, i, st);
      } else if line != "" && SubsectionMatch(line).Some? && st.cursor.chapter.Some? && st.cursor.section.Some? {
        SubsectionLineStep(cleaned, i, st);
      }
      var (next, j) := Step(cleaned, i, st);
      ScanKeepsChapters(cleaned, j, next);
    }
  }
}
