/**
  The page loop of non_json.py `extract_titles_from_pdf` (non_json.py:12-55),
  described on keys: the outline as a value, and the two cursors as the keys
  of the entries their dictionaries belong to.

  `current_section` is the `sections` dictionary of the chapter stored last;
  since every store of a chapter also moves that cursor, it always belongs to
  the entry `structure[chapter]`.  `current_subsection` is the `subsections`
  dictionary of the section stored last.  It is not moved when a chapter is
  stored, so it keeps pointing into the previous chapter; and when the
  chapter it belongs to is replaced by one with the same number, the
  dictionary is cut out of the outline and what is written to it afterwards
  is lost.  `TitlesStore` proves this description right for the dictionaries
  held by reference.
*/
module TitlesOutline {
  import opened Wrappers
  import opened Text
  import opened Numbering
  import opened TitlesPatterns
  import opened Outline

  /**
    Where `current_subsection` points: section `section` of the chapter stored
    under `chapter` when that section was created.  `attached` is false once
    that chapter has been replaced.
  */
  datatype SubCursor = SubCursor(chapter: string, section: string, attached: bool)

  datatype TitlesState = TitlesState(structure: Structure, chapter: Option<string>, subsection: Option<SubCursor>)

  /** non_json.py:7, 12-13 */
  const Start: TitlesState := TitlesState(map[], None, None)

  /** `current_section[...] = ...` with `current_section` still None (non_json.py:42): a `TypeError` that ends the call. */
  datatype TitlesError = NoCurrentChapter(line: string)

  /** The cursors name entries of the outline, an attached subsection cursor included. */
  predicate Valid(st: TitlesState) {
    && (st.chapter.Some? ==> st.chapter.value in st.structure)
    && (st.subsection.Some? && st.subsection.value.attached ==>
          && st.subsection.value.chapter in st.structure
          && st.subsection.value.section in st.structure[st.subsection.value.chapter].sections)
  }

  /** Storing chapter `c` cuts a subsection cursor into the old chapter `c` out of the outline. */
  function Detach(sub: Option<SubCursor>, c: string): Option<SubCursor> {
    if sub.Some? && sub.value.chapter == c then Some(sub.value.(attached := false)) else sub
  }

  /** One line of the chapter pass (non_json.py:24-32). */
  function ChapterLine(st: TitlesState, line: string): (r: TitlesState)
    requires Valid(st)
    ensures Valid(r)
  {
    match ChapterTitleMatch(line)
    case None => st
    case Some(h) =>
      TitlesState(st.structure[h.number := Chapter(Strip(h.rest), map[])], Some(h.number), Detach(st.subsection, h.number))
  }

  /** One line of the section pass (non_json.py:36-53). */
  function SectionLine(st: TitlesState, line: string): (r: Result<TitlesState, TitlesError>)
    requires Valid(st)
    ensures r.Success? ==> Valid(r.value)
  {
    if SectionTitleMatch(line).Some? then
      var h := SectionTitleMatch(line).value;
      if st.chapter.None? then Failure(NoCurrentChapter(line))
      else
        var c := st.chapter.value;
        Success(TitlesState(PutSection(st.structure, c, h.number, Strip(h.rest)), st.chapter, Some(SubCursor(c, h.number, true))))
    else if SubsectionTitleMatch(line).Some? && st.subsection.Some? then
      var h := SubsectionTitleMatch(line).value;
      var sub := st.subsection.value;
      if sub.attached then
        Success(st.(structure := PutSubsection(st.structure, sub.chapter, sub.section, h.number, Strip(h.rest))))
      else
        Success(st)
    else
      Success(st)
  }

  /** The chapter pass over `lines[i..]` (non_json.py:23-32). */
  function ChaptersPass(st: TitlesState, lines: seq<string>, i: nat): (r: TitlesState)
    requires i <= |lines| && Valid(st)
    ensures Valid(r)
    decreases |lines| - i
  {
    if i == |lines| then st else ChaptersPass(ChapterLine(st, lines[i]), lines, i + 1)
  }

  /** The section pass over `lines[i..]` (non_json.py:35-53); the first error ends it. */
  function SectionsPass(st: TitlesState, lines: seq<string>, i: nat): (r: Result<TitlesState, TitlesError>)
    requires i <= |lines| && Valid(st)
    ensures r.Success? ==> Valid(r.value)
    decreases |lines| - i
  {
    if i == |lines| then Success(st)
    else
      match SectionLine(st, lines[i])
      case Failure(e) => Failure(e)
      case Success(next) => SectionsPass(next, lines, i + 1)
  }

  /** `[line.strip() for line in lines]` (non_json.py:20) */
  function StripAll(lines: seq<string>): (r: seq<string>)
    ensures |r| == |lines|
    ensures forall k :: 0 <= k < |lines| ==> r[k] == Strip(lines[k])
  {
    seq(|lines|, k requires 0 <= k < |lines| => Strip(lines[k]))
  }

  /** One page (non_json.py:16-53): skipped when it has no text, else both passes over its stripped lines. */
  function Page(st: TitlesState, page: Option<seq<string>>): (r: Result<TitlesState, TitlesError>)
    requires Valid(st)
    ensures r.Success? ==> Valid(r.value)
  {
    match page
    case None => Success(st)
    case Some(raw) =>
      var lines := StripAll(raw);
      SectionsPass(ChaptersPass(st, lines, 0), lines, 0)
  }

  /** The pages from `p` on (non_json.py:15). */
  function Pages(st: TitlesState, pages: seq<Option<seq<string>>>, p: nat): (r: Result<TitlesState, TitlesError>)
    requires p <= |pages| && Valid(st)
    ensures r.Success? ==> Valid(r.value)
    decreases |pages| - p
  {
    if p == |pages| then Success(st)
    else
      match Page(st, pages[p])
      case Failure(e) => Failure(e)
      case Success(next) => Pages(next, pages, p + 1)
  }

  /** What `extract_titles_from_pdf` returns, or the error it raises, for these pages of lines. */
  function ExtractTitles(pages: seq<Option<seq<string>>>): Result<Structure, TitlesError> {
    match Pages(Start, pages, 0)
    case Failure(e) => Failure(e)
    case Success(st) => Success(st.structure)
  }
}
