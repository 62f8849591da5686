/**
  What the non_json.py page loop guarantees, proved about its key-based
  description `TitlesOutline`: the order of the two passes, the error on an
  orphan section, and where subsections go.
*/
module TitlesProperties {
  import opened Wrappers
  import opened Text
  import opened TitlesPatterns
  import opened TitlesOutline
  import opened Outline

  // ---------------------------------------------------------------------
  // The chapter pass

  /**
    A chapter line (non_json.py:24-32) stores the chapter with no sections,
    replacing one with the same number, and moves the section cursor to it.
    The subsection cursor stays where it was, but is cut off when it pointed
    into the chapter just replaced.
  */
  lemma ChapterLineStores(st: TitlesState, line: string)
    requires Valid(st) && ChapterTitleMatch(line).Some?
    ensures var h := ChapterTitleMatch(line).value;
      var r := ChapterLine(st, line);
      && r.structure.Keys == st.structure.Keys + {h.number}
      && (forall c :: c in st.structure && c != h.number ==> r.structure[c] == st.structure[c])
      && r.structure[h.number] == Chapter(Strip(h.rest), map[])
      && r.chapter == Some(h.number)
      && (st.subsection.Some? && st.subsection.value.chapter != h.number ==> r.subsection == st.subsection)
      && (st.subsection.Some? && st.subsection.value.chapter == h.number ==> r.subsection.Some? && !r.subsection.value.attached)
      && (st.subsection.None? ==> r.subsection.None?)
  {
  }

  predicate NoChapterLine(lines: seq<string>, i: nat, j: nat)
    requires i <= j <= |lines|
  {
    forall k :: i <= k < j ==> ChapterTitleMatch(lines[k]).None?
  }

  /**
    After the chapter pass the section cursor is at the last chapter line of
    the page, or where it was if the page has none (non_json.py:23-32).
  */
  lemma {:induction false} ChaptersPassEndsAtLastChapter(st: TitlesState, lines: seq<string>, i: nat)
    requires i <= |lines| && Valid(st)
    ensures NoChapterLine(lines, i, |lines|) ==> ChaptersPass(st, lines, i) == st
    ensures !NoChapterLine(lines, i, |lines|) ==>
      exists k :: && i <= k < |lines| && ChapterTitleMatch(lines[k]).Some? && NoChapterLine(lines, k + 1, |lines|)
                  && ChaptersPass(st, lines, i).chapter == Some(ChapterTitleMatch(lines[k]).value.number)
    decreases |lines| - i
  {
    if i < |lines| {
      var next := ChapterLine(st, lines[i]);
      ChaptersPassEndsAtLastChapter(next, lines, i + 1);
      if NoChapterLine(lines, i + 1, |lines|) && ChapterTitleMatch(lines[i]).Some? {
        assert ChaptersPass(st, lines, i).chapter == Some(ChapterTitleMatch(lines[i]).value.number);
      }
    }
  }

  // ---------------------------------------------------------------------
  // The section pass

  /**
    A section line under a current chapter (non_json.py:39-46) stores the
    section with no subsections in that chapter, replacing one with the same
    number, and moves the subsection cursor to it.
  */
  lemma SectionLineStores(st: TitlesState, line: string)
    requires Valid(st) && SectionTitleMatch(line).Some? && st.chapter.Some?
    ensures var h := SectionTitleMatch(line).value;
      var c := st.chapter.value;
      var r := SectionLine(st, line);
      && r.Success?
      && r.value.structure.Keys == st.structure.Keys
      && (forall k :: k in st.structure && k != c ==> r.value.structure[k] == st.structure[k])
      && r.value.structure[c].title == st.structure[c].title
      && r.value.structure[c].sections == st.structure[c].sections[h.number := Section(Strip(h.rest), map[])]
      && r.value.chapter == st.chapter
      && r.value.subsection == Some(SubCursor(c, h.number, true))
  {
  }

  /** A section line with no chapter seen yet raises (non_json.py:12, 42): an error, not a drop. */
  lemma SectionLineWithoutChapterFails(st: TitlesState, line: string)
    requires Valid(st) && SectionTitleMatch(line).Some? && st.chapter.None?
    ensures SectionLine(st, line) == Failure(NoCurrentChapter(line))
  {
  }

  /**
    A subsection line goes into the section the cursor points to, which may
    belong to an earlier chapter than the current one (non_json.py:48-53).
  */
  lemma SubsectionLineStores(st: TitlesState, line: string)
    requires Valid(st) && SubsectionTitleMatch(line).Some?
    requires st.subsection.Some? && st.subsection.value.attached
    ensures var h := SubsectionTitleMatch(line).value;
      var c := st.subsection.value.chapter;
      var s := st.subsection.value.section;
      var r := SectionLine(st, line);
      && r.Success?
      && r.value.structure.Keys == st.structure.Keys
      && (forall k :: k in st.structure && k != c ==> r.value.structure[k] == st.structure[k])
      && r.value.structure[c].sections.Keys == st.structure[c].sections.Keys
      && (forall k :: k in st.structure[c].sections && k != s ==> r.value.structure[c].sections[k] == st.structure[c].sections[k])
      && r.value.structure[c].title == st.structure[c].title
      && r.value.structure[c].sections[s].title == st.structure[c].sections[s].title
      && r.value.structure[c].sections[s].subsections
         == st.structure[c].sections[s].subsections[h.number := Subsection(Strip(h.rest))]
      && r.value.chapter == st.chapter && r.value.subsection == st.subsection
  {
    SubsectionIsNotSection(line);
  }

  /** Subsection lines before any section line are dropped (non_json.py:13, 48). */
  lemma SubsectionBeforeSectionDropped(st: TitlesState, line: string)
    requires Valid(st) && SubsectionTitleMatch(line).Some? && st.subsection.None?
    ensures SectionLine(st, line) == Success(st)
  {
    SubsectionIsNotSection(line);
  }

  /**
    A subsection line after a new chapter heading with another number, and
    no section line in between, lands in the last section of the earlier
    chapter, since `current_subsection` is not reset at non_json.py:32.
  */
  lemma SubsectionCrossesChapter(st: TitlesState, chapterLine: string, subsectionLine: string)
    requires Valid(st) && st.subsection.Some? && st.subsection.value.attached
    requires ChapterTitleMatch(chapterLine).Some? && ChapterTitleMatch(chapterLine).value.number != st.subsection.value.chapter
    requires SubsectionTitleMatch(subsectionLine).Some?
    ensures var mid := ChapterLine(st, chapterLine);
      var c := st.subsection.value.chapter;
      var s := st.subsection.value.section;
      var r := SectionLine(mid, subsectionLine);
      && r.Success?
      && r.value.structure[c].sections[s].subsections
         == st.structure[c].sections[s].subsections[SubsectionTitleMatch(subsectionLine).value.number := Subsection(Strip(SubsectionTitleMatch(subsectionLine).value.rest))]
      && r.value.structure[ChapterTitleMatch(chapterLine).value.number].sections == map[]
  {
    var mid := ChapterLine(st, chapterLine);
    ChapterLineStores(st, chapterLine);
    SubsectionLineStores(mid, subsectionLine);
  }

  /**
    But when the new chapter heading has the cursor's own chapter number, the
    cursor's dictionary is no longer in the outline: the subsection is lost.
  */
  lemma SubsectionLostAfterSameChapter(st: TitlesState, chapterLine: string, subsectionLine: string)
    requires Valid(st) && st.subsection.Some?
    requires ChapterTitleMatch(chapterLine).Some? && ChapterTitleMatch(chapterLine).value.number == st.subsection.value.chapter
    requires SubsectionTitleMatch(subsectionLine).Some?
    ensures SectionLine(ChapterLine(st, chapterLine), subsectionLine) == Success(ChapterLine(st, chapterLine))
  {
    SubsectionIsNotSection(subsectionLine);
  }

  /** What one line of the section pass keeps: the chapter cursor, the chapters and their titles, and the sections of every other chapter. */
  lemma SectionLineFrame(st: TitlesState, line: string)
    requires Valid(st)
    ensures var r := SectionLine(st, line);
      r.Success? ==>
        && r.value.chapter == st.chapter
        && r.value.structure.Keys == st.structure.Keys
        && (forall c :: c in st.structure ==> r.value.structure[c].title == st.structure[c].title)
        && (forall c :: c in st.structure && Some(c) != st.chapter ==> r.value.structure[c].sections.Keys == st.structure[c].sections.Keys)
  {
    if SectionTitleMatch(line).Some? {
      if st.chapter.Some? {
        SectionLineStores(st, line);
      }
    } else if SubsectionTitleMatch(line).Some? && st.subsection.Some? && st.subsection.value.attached {
      SubsectionLineStores(st, line);
    }
  }

  /** The same over the whole section pass: sections only go under the chapter current when the pass began. */
  lemma {:induction false} SectionsPassFrame(st: TitlesState, lines: seq<string>, i: nat)
    requires i <= |lines| && Valid(st)
    ensures var r := SectionsPass(st, lines, i);
      r.Success? ==>
        && r.value.chapter == st.chapter
        && r.value.structure.Keys == st.structure.Keys
        && (forall c :: c in st.structure ==> r.value.structure[c].title == st.structure[c].title)
        && (forall c :: c in st.structure && Some(c) != st.chapter ==> r.value.structure[c].sections.Keys == st.structure[c].sections.Keys)
    decreases |lines| - i
  {
    if i < |lines| {
      SectionLineFrame(st, lines[i]);
      if SectionLine(st, lines[i]).Success? {
        SectionsPassFrame(SectionLine(st, lines[i]).value, lines, i + 1);
      }
    }
  }

  /** One line of the section pass keeps the sections of the current chapter, and a section line adds its number there. */
  lemma SectionLineKeepsSections(st: TitlesState, line: string)
    requires Valid(st) && st.chapter.Some?
    ensures var c := st.chapter.value;
      var r := SectionLine(st, line);
      r.Success? ==>
        && r.value.chapter == st.chapter
        && st.structure[c].sections.Keys <= r.value.structure[c].sections.Keys
        && (SectionTitleMatch(line).Some? ==> SectionTitleMatch(line).value.number in r.value.structure[c].sections)
  {
    if SectionTitleMatch(line).Some? {
      SectionLineStores(st, line);
    } else if SubsectionTitleMatch(line).Some? && st.subsection.Some? && st.subsection.value.attached {
      SubsectionLineStores(st, line);
    }
  }

  /**
    The section pass keeps every section of the chapter current when it
    began, and stores there the number of each of its section lines.
  */
  lemma {:induction false} SectionsPassStoresSections(st: TitlesState, lines: seq<string>, i: nat)
    requires i <= |lines| && Valid(st) && st.chapter.Some?
    ensures var c := st.chapter.value;
      var r := SectionsPass(st, lines, i);
      r.Success? ==>
        && r.value.chapter == st.chapter
        && st.structure[c].sections.Keys <= r.value.structure[c].sections.Keys
        && (forall k :: i <= k < |lines| && SectionTitleMatch(lines[k]).Some? ==>
              SectionTitleMatch(lines[k]).value.number in r.value.structure[c].sections)
    decreases |lines| - i
  {
    if i < |lines| && SectionLine(st, lines[i]).Success? {
      var c := st.chapter.value;
      var next := SectionLine(st, lines[i]).value;
      var r := SectionsPass(st, lines, i);
      assert r == SectionsPass(next, lines, i + 1);
      SectionLineKeepsSections(st, lines[i]);
      SectionsPassStoresSections(next, lines, i + 1);
      if r.Success? {
        forall k | i <= k < |lines| && SectionTitleMatch(lines[k]).Some?
          ensures SectionTitleMatch(lines[k]).value.number in r.value.structure[c].sections
        {
          if k == i {
            assert SectionTitleMatch(lines[k]).value.number in next.structure[c].sections;
          }
        }
      }
    }
  }

  /**
    On each page all chapter lines come first (non_json.py:23-32, 35-46): the
    page's sections all go under the chapter of its last chapter line (or of
    an earlier page when it has none), whatever the order of its lines.
  */
  lemma PageSectionsUnderLastChapter(st: TitlesState, raw: seq<string>)
    requires Valid(st)
    ensures var lines := StripAll(raw);
      var mid := ChaptersPass(st, lines, 0);
      var r := Page(st, Some(raw));
      r.Success? ==>
        && r.value.chapter == mid.chapter
        && r.value.structure.Keys == mid.structure.Keys
        && (forall c :: c in mid.structure && Some(c) != mid.chapter ==> r.value.structure[c].sections.Keys == mid.structure[c].sections.Keys)
        && (mid.chapter.Some? ==> forall k :: 0 <= k < |lines| && SectionTitleMatch(lines[k]).Some? ==>
              SectionTitleMatch(lines[k]).value.number in r.value.structure[mid.chapter.value].sections)
  {
    var lines := StripAll(raw);
    var mid := ChaptersPass(st, lines, 0);
    SectionsPassFrame(mid, lines, 0);
    if mid.chapter.Some? {
      SectionsPassStoresSections(mid, lines, 0);
    }
  }

  /** With no chapter seen, the first section line of a section pass ends the whole run in the error. */
  lemma {:induction false} OrphanSectionFails(st: TitlesState, lines: seq<string>, i: nat, k: nat)
    requires i <= k < |lines| && Valid(st) && st.chapter.None? && SectionTitleMatch(lines[k]).Some?
    ensures SectionsPass(st, lines, i).Failure?
    decreases k - i
  {
    if SectionTitleMatch(lines[i]).None? {
      SectionLineFrame(st, lines[i]);
      if SectionLine(st, lines[i]).Success? {
        OrphanSectionFails(SectionLine(st, lines[i]).value, lines, i + 1, k);
      }
    }
  }

  /** A first page with a section line and no chapter line makes `extract_titles_from_pdf` raise. */
  lemma FirstPageOrphanSectionFails(pages: seq<Option<seq<string>>>, k: nat)
    requires |pages| > 0 && pages[0].Some? && k < |pages[0].value|
    requires NoChapterLine(StripAll(pages[0].value), 0, |pages[0].value|)
    requires SectionTitleMatch(Strip(pages[0].value[k])).Some?
    ensures ExtractTitles(pages).Failure?
  {
    var lines := StripAll(pages[0].value);
    ChaptersPassEndsAtLastChapter(Start, lines, 0);
    OrphanSectionFails(Start, lines, 0, k);
  }
}
