/**
  pdf_pages_reading.py `extract_structure_from_text` (pdf_pages_reading.py:65-103),
  described on keys.  The outline maps each chapter heading line to its
  entry; a chapter holds its sections, a section its subsections, each keyed
  by its own heading line, and each entry collects the body lines that
  follow it.

  The three cursors are the entries last created at each level.  A chapter
  entry is always stored when it is created, so `chapter` is its key.  A
  section created with no chapter open, or a subsection created with no
  section open or under such a section, is stored nowhere: the cursor is
  `Loose`, and the text written to it is lost.  `PagesStore` proves this
  description right for the dictionaries held by reference.
*/
module PagesOutline {
  import opened Wrappers
  import opened Text
  import opened PagesPatterns

  /** `{"title": ..., "text": ...}` */
  datatype SubsectionEntry = SubsectionEntry(title: string, text: string)

  /** `{"title": ..., "subsections": {...}, "text": ...}` */
  datatype SectionEntry = SectionEntry(title: string, subsections: map<string, SubsectionEntry>, text: string)

  /** `{"title": ..., "sections": {...}, "text": ...}` */
  datatype ChapterEntry = ChapterEntry(title: string, sections: map<string, SectionEntry>, text: string)

  type Document = map<string, ChapterEntry>

  /** Where a section or subsection cursor points: nowhere, to the entry with this key, or to an entry stored nowhere. */
  datatype Cursor = Closed | Attached(key: string) | Loose

  datatype PagesState = PagesState(structure: Document, chapter: Option<string>, section: Cursor, subsection: Cursor)

  /** pdf_pages_reading.py:67-68 */
  const Start: PagesState := PagesState(map[], None, Closed, Closed)

  /** The cursors name entries of the outline, each inside the one above it. */
  predicate Valid(st: PagesState) {
    && (st.chapter.Some? ==> st.chapter.value in st.structure)
    && (st.section.Attached? ==>
          st.chapter.Some? && st.section.key in st.structure[st.chapter.value].sections)
    && (st.subsection.Attached? ==>
          && st.section.Attached?
          && st.subsection.key in st.structure[st.chapter.value].sections[st.section.key].subsections)
  }

  /** `current_chapter['sections'][key] = ...` */
  function PutSection(structure: Document, c: string, key: string, entry: SectionEntry): Document
    requires c in structure
  {
    structure[c := structure[c].(sections := structure[c].sections[key := entry])]
  }

  /** `current_section['subsections'][key] = ...` */
  function PutSubsection(structure: Document, c: string, s: string, key: string, entry: SubsectionEntry): Document
    requires c in structure && s in structure[c].sections
  {
    var section := structure[c].sections[s];
    PutSection(structure, c, s, section.(subsections := section.subsections[key := entry]))
  }

  /**
    A body line (pdf_pages_reading.py:95-101): `line + "\n"` goes to the
    current subsection, else the current section, else the current chapter,
    else nowhere; to a cursor stored nowhere it is lost.
  */
  function AppendText(st: PagesState, t: string): (r: PagesState)
    requires Valid(st)
    ensures Valid(r)
  {
    var s := st.structure;
    if st.subsection != Closed then
      if st.subsection.Loose? then st
      else
        var c := st.chapter.value;
        var sec := s[c].sections[st.section.key];
        var sub := sec.subsections[st.subsection.key];
        st.(structure := PutSubsection(s, c, st.section.key, st.subsection.key, sub.(text := sub.text + t)))
    else if st.section != Closed then
      if st.section.Loose? then st
      else
        var c := st.chapter.value;
        var sec := s[c].sections[st.section.key];
        st.(structure := PutSection(s, c, st.section.key, sec.(text := sec.text + t)))
    else if st.chapter.Some? then
      var c := st.chapter.value;
      st.(structure := s[c := s[c].(text := s[c].text + t)])
    else st
  }

  /** One line (pdf_pages_reading.py:76-101), classified after `strip()`. */
  function Step(st: PagesState, raw: string): (r: PagesState)
    requires Valid(st)
    ensures Valid(r)
  {
    var line := Strip(raw);
    if IsChapterLine(line) then
      PagesState(st.structure[line := ChapterEntry(line, map[], "")], Some(line), Closed, Closed)
    else if IsSectionLine(line) then
      var entry := SectionEntry(line, map[], "");
      if st.chapter.Some? then
        PagesState(PutSection(st.structure, st.chapter.value, line, entry), st.chapter, Attached(line), Closed)
      else
        st.(section := Loose, subsection := Closed)
    else if IsSubsectionLine(line) then
      var entry := SubsectionEntry(line, "");
      if st.section.Attached? then
        st.(structure := PutSubsection(st.structure, st.chapter.value, st.section.key, line, entry), subsection := Attached(line))
      else
        st.(subsection := Loose)
    else
      AppendText(st, line + "\n")
  }

  /** The loop over `lines[i..]` (pdf_pages_reading.py:75-101). */
  function Scan(st: PagesState, lines: seq<string>, i: nat): (r: PagesState)
    requires i <= |lines| && Valid(st)
    ensures Valid(r)
    decreases |lines| - i
  {
    if i == |lines| then st else Scan(Step(st, lines[i]), lines, i + 1)
  }

  /** What `extract_structure_from_text` returns for `text` (pdf_pages_reading.py:65-103). */
  function ExtractStructure(text: string): Document {
    Scan(Start, SplitLines(text), 0).structure
  }
}
