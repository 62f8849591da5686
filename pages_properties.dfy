/**
  What `extract_structure_from_text` guarantees, proved about its key-based
  description `PagesOutline`.
*/
module PagesProperties {
  import opened Wrappers
  import opened Text
  import opened PagesPatterns
  import opened PagesOutline

  // ---------------------------------------------------------------------
  // One line

  /**
    A chapter line stores a fresh entry under the whole stripped line, with
    that line as its title, replacing an earlier identical heading, and
    closes the section and subsection (pdf_pages_reading.py:79-82).
  */
  lemma ChapterLineStep(st: PagesState, raw: string)
    requires Valid(st) && IsChapterLine(Strip(raw))
    ensures var line := Strip(raw);
      var r := Step(st, raw);
      && r.structure.Keys == st.structure.Keys + {line}
      && (forall k :: k in st.structure && k != line ==> r.structure[k] == st.structure[k])
      && r.structure[line] == ChapterEntry(line, map[], "")
      && r.chapter == Some(line) && r.section == Closed && r.subsection == Closed
  {
  }

  /**
    A section line under an open chapter stores a fresh entry in that
    chapter, replacing an identical heading there, and closes the subsection
    (pdf_pages_reading.py:84-88).
  */
  lemma SectionLineStep(st: PagesState, raw: string)
    requires Valid(st) && IsSectionLine(Strip(raw)) && st.chapter.Some?
    ensures var r := Step(st, raw);
      var c := st.chapter.value;
      && r.structure.Keys == st.structure.Keys
      && (forall k :: k in st.structure && k != c ==> r.structure[k] == st.structure[k])
      && r.structure[c].title == st.structure[c].title && r.structure[c].text == st.structure[c].text
      && r.structure[c].sections == st.structure[c].sections[Strip(raw) := SectionEntry(Strip(raw), map[], "")]
      && r.chapter == st.chapter && r.section == Attached(Strip(raw)) && r.subsection == Closed
  {
    if IsChapterLine(Strip(raw)) {
      ChapterLineIsNoSectionLine(Strip(raw));
    }
  }

  /**
    A section line with no chapter open is stored nowhere, yet becomes the
    current section, so the body text after it is lost (pdf_pages_reading.py:85-88, 98-99).
  */
  lemma OrphanSectionStep(st: PagesState, raw: string, body: string)
    requires Valid(st) && IsSectionLine(Strip(raw)) && st.chapter.None?
    requires IsBodyLine(Strip(body))
    ensures Step(st, raw).structure == st.structure
    ensures Step(st, raw).section == Loose
    ensures Step(Step(st, raw), body).structure == st.structure
  {
    if IsChapterLine(Strip(raw)) {
      ChapterLineIsNoSectionLine(Strip(raw));
    }
    var mid := Step(st, raw);
    assert mid == st.(section := Loose, subsection := Closed);
    assert Step(mid, body) == AppendText(mid, Strip(body) + "\n");
  }

  /** Chapter `c` is the only top-level entry that may differ. */
  predicate OnlyChapter(s: Document, s': Document, c: string) {
    s'.Keys == s.Keys && forall k :: k in s && k != c ==> s'[k] == s[k]
  }

  /** Section `k` is the only part of the chapter entry that may differ. */
  predicate OnlySection(e: ChapterEntry, e': ChapterEntry, k: string) {
    && e'.title == e.title && e'.text == e.text && e'.sections.Keys == e.sections.Keys
    && forall q :: q in e.sections && q != k ==> e'.sections[q] == e.sections[q]
  }

  /** Subsection `u` is the only part of the section entry that may differ. */
  predicate OnlySubsection(e: SectionEntry, e': SectionEntry, u: string) {
    && e'.title == e.title && e'.text == e.text && e'.subsections.Keys == e.subsections.Keys
    && forall q :: q in e.subsections && q != u ==> e'.subsections[q] == e.subsections[q]
  }

  /**
    `t` appended to the deepest open entry (pdf_pages_reading.py:96-101): the
    current subsection if there is one, else the current section, else the
    current chapter; when that cursor is stored nowhere, or nothing is open,
    nothing changes.  The cursors stay and no other text changes.
  */
  predicate AppendedToDeepest(st: PagesState, t: string, r: PagesState)
    requires Valid(st)
  {
    var s := st.structure;
    && r.chapter == st.chapter && r.section == st.section && r.subsection == st.subsection
    && (st.subsection.Attached? ==>
          var c, k, u := st.chapter.value, st.section.key, st.subsection.key;
          var sub := s[c].sections[k].subsections[u];
          && OnlyChapter(s, r.structure, c) && OnlySection(s[c], r.structure[c], k)
          && OnlySubsection(s[c].sections[k], r.structure[c].sections[k], u)
          && r.structure[c].sections[k].subsections[u] == sub.(text := sub.text + t))
    && (st.subsection.Closed? && st.section.Attached? ==>
          var c, k := st.chapter.value, st.section.key;
          var sec := s[c].sections[k];
          && OnlyChapter(s, r.structure, c) && OnlySection(s[c], r.structure[c], k)
          && r.structure[c].sections[k] == sec.(text := sec.text + t))
    && (st.subsection.Closed? && st.section.Closed? && st.chapter.Some? ==>
          var c := st.chapter.value;
          && OnlyChapter(s, r.structure, c)
          && r.structure[c] == s[c].(text := s[c].text + t))
    && ((|| st.subsection.Loose?
         || (st.subsection.Closed? && st.section.Loose?)
         || (st.subsection.Closed? && st.section.Closed? && st.chapter.None?)) ==> r == st)
  }

  /** `AppendText` appends to the deepest open entry. */
  lemma AppendTextToDeepest(st: PagesState, t: string)
    requires Valid(st)
    ensures AppendedToDeepest(st, t, AppendText(st, t))
  {
  }

  /**
    A non-heading line, empty or not, goes with a newline to the deepest open
    entry and moves no cursor (pdf_pages_reading.py:95-101).
  */
  lemma BodyLineStep(st: PagesState, raw: string)
    requires Valid(st) && IsBodyLine(Strip(raw))
    ensures AppendedToDeepest(st, Strip(raw) + "\n", Step(st, raw))
  {
    AppendTextToDeepest(st, Strip(raw) + "\n");
  }

  /** A second store of the same section overrides the first. */
  lemma PutSectionTwice(s: Document, c: string, k: string, x: SectionEntry, y: SectionEntry)
    requires c in s
    ensures PutSection(PutSection(s, c, k, x), c, k, y) == PutSection(s, c, k, y)
  {
    assert s[c].sections[k := x][k := y] == s[c].sections[k := y];
  }

  /** A second store of the same subsection overrides the first. */
  lemma PutSubsectionTwice(s: Document, c: string, k: string, u: string, x: SubsectionEntry, y: SubsectionEntry)
    requires c in s && k in s[c].sections
    ensures PutSubsection(PutSubsection(s, c, k, u, x), c, k, u, y) == PutSubsection(s, c, k, u, y)
  {
    var sec := s[c].sections[k];
    var once := PutSubsection(s, c, k, u, x);
    assert once[c].sections[k] == sec.(subsections := sec.subsections[u := x]);
    assert sec.subsections[u := x][u := y] == sec.subsections[u := y];
    assert s[c].sections[k := sec.(subsections := sec.subsections[u := x])][k := sec.(subsections := sec.subsections[u := y])]
        == s[c].sections[k := sec.(subsections := sec.subsections[u := y])];
  }

  /** Two appends to the same open entry are one append of both texts, in order. */
  lemma AppendTextTwice(st: PagesState, a: string, b: string)
    requires Valid(st)
    ensures AppendText(AppendText(st, a), b) == AppendText(st, a + b)
  {
    var s := st.structure;
    if st.subsection.Attached? {
      var c, k, u := st.chapter.value, st.section.key, st.subsection.key;
      var sub := s[c].sections[k].subsections[u];
      var once := PutSubsection(s, c, k, u, sub.(text := sub.text + a));
      assert AppendText(st, a).structure == once;
      assert once[c].sections[k].subsections[u] == sub.(text := sub.text + a);
      assert (sub.text + a) + b == sub.text + (a + b);
      PutSubsectionTwice(s, c, k, u, sub.(text := sub.text + a), sub.(text := sub.text + (a + b)));
    } else if st.subsection.Closed? && st.section.Attached? {
      var c, k := st.chapter.value, st.section.key;
      var sec := s[c].sections[k];
      assert AppendText(st, a).structure == PutSection(s, c, k, sec.(text := sec.text + a));
      assert (sec.text + a) + b == sec.text + (a + b);
      PutSectionTwice(s, c, k, sec.(text := sec.text + a), sec.(text := sec.text + (a + b)));
    } else if st.subsection.Closed? && st.section.Closed? && st.chapter.Some? {
      var t := s[st.chapter.value].text;
      assert (t + a) + b == t + (a + b);
    }
  }

  // ---------------------------------------------------------------------
  // Runs of lines

  /** The body lines `lines[i..m]`, stripped, each followed by a newline. */
  function BodyText(lines: seq<string>, i: nat, m: nat): string
    requires i <= m <= |lines|
    decreases m - i
  {
    if i == m then "" else Strip(lines[i]) + "\n" + BodyText(lines, i + 1, m)
  }

  /**
    A run of body lines lands, in order, in the one entry the cursors point
    to when the run begins (pdf_pages_reading.py:95-101).
  */
  lemma {:induction false} BodyRunCollected(st: PagesState, lines: seq<string>, i: nat, m: nat)
    requires Valid(st) && i <= m <= |lines|
    requires forall k :: i <= k < m ==> IsBodyLine(Strip(lines[k]))
    ensures Scan(st, lines[..m], i) == AppendText(st, BodyText(lines, i, m))
    decreases m - i
  {
    if i == m {
      assert AppendText(st, "") == st by {
        AppendTextNothing(st);
      }
    } else {
      var head := Strip(lines[i]) + "\n";
      assert lines[..m][i] == lines[i];
      assert Step(st, lines[..m][i]) == AppendText(st, head);
      BodyRunCollected(AppendText(st, head), lines, i + 1, m);
      AppendTextTwice(st, head, BodyText(lines, i + 1, m));
      assert head + BodyText(lines, i + 1, m) == BodyText(lines, i, m);
    }
  }

  lemma AppendTextNothing(st: PagesState)
    requires Valid(st)
    ensures AppendText(st, "") == st
  {
    var s := st.structure;
    if st.subsection.Attached? {
      var c, k, u := st.chapter.value, st.section.key, st.subsection.key;
      var sub := s[c].sections[k].subsections[u];
      assert sub.text + "" == sub.text;
      assert sub.(text := sub.text) == sub;
      assert s[c].sections[k].subsections[u := sub] == s[c].sections[k].subsections;
      assert s[c].sections[k := s[c].sections[k]] == s[c].sections;
    } else if st.subsection.Closed? && st.section.Attached? {
      var c, k := st.chapter.value, st.section.key;
      var sec := s[c].sections[k];
      assert sec.text + "" == sec.text;
      assert s[c].sections[k := sec] == s[c].sections;
    } else if st.subsection.Closed? && st.section.Closed? && st.chapter.Some? {
      assert s[st.chapter.value].text + "" == s[st.chapter.value].text;
    }
  }

  // ---------------------------------------------------------------------
  // The subsection branch is never taken

  /** No section of chapter `e` holds a subsection. */
  predicate NoSubsections(e: ChapterEntry) {
    forall k :: k in e.sections ==> e.sections[k].subsections == map[]
  }

  /** No subsection is open and no section holds one. */
  predicate Flat(st: PagesState) {
    st.subsection == Closed && forall c :: c in st.structure ==> NoSubsections(st.structure[c])
  }

  lemma PutSectionFlat(st: PagesState, c: string, k: string, e: SectionEntry)
    requires Flat(st) && c in st.structure && e.subsections == map[]
    ensures Flat(st.(structure := PutSection(st.structure, c, k, e)))
  {
    var d := PutSection(st.structure, c, k, e);
    assert NoSubsections(d[c]);
  }

  lemma StepKeepsFlat(st: PagesState, raw: string)
    requires Valid(st) && Flat(st)
    ensures Flat(Step(st, raw))
  {
    var line := Strip(raw);
    SubsectionLineIsSectionLine(line);
    if IsChapterLine(line) {
    } else if IsSectionLine(line) {
      if st.chapter.Some? {
        PutSectionFlat(st, st.chapter.value, line, SectionEntry(line, map[], ""));
      }
    } else {
      AppendTextFlat(st, line + "\n");
    }
  }

  lemma AppendTextFlat(st: PagesState, t: string)
    requires Valid(st) && Flat(st)
    ensures Flat(AppendText(st, t))
  {
    if st.section.Attached? {
      var c, k := st.chapter.value, st.section.key;
      var sec := st.structure[c].sections[k];
      assert NoSubsections(st.structure[c]);
      PutSectionFlat(st, c, k, sec.(text := sec.text + t));
    }
  }

  lemma {:induction false} ScanKeepsFlat(st: PagesState, lines: seq<string>, i: nat)
    requires i <= |lines| && Valid(st) && Flat(st)
    ensures Flat(Scan(st, lines, i))
    decreases |lines| - i
  {
    if i < |lines| {
      StepKeepsFlat(st, lines[i]);
      ScanKeepsFlat(Step(st, lines[i]), lines, i + 1);
    }
  }

  /**
    Every section of the result has an empty `subsections` map: a
    subsection line is always taken for a section line first
    (pdf_pages_reading.py:71-72, 84-93).
  */
  lemma NoSubsectionsEver(text: string)
    ensures var r := ExtractStructure(text);
      forall c, k :: c in r && k in r[c].sections ==> r[c].sections[k].subsections == map[]
  {
    ScanKeepsFlat(Start, SplitLines(text), 0);
  }

  // ---------------------------------------------------------------------
  // Keys and titles

  /** The stripped chapter lines among `lines[i..]`. */
  function ChapterKeys(lines: seq<string>, i: nat): set<string>
    requires i <= |lines|
    decreases |lines| - i
  {
    if i == |lines| then {}
    else (if IsChapterLine(Strip(lines[i])) then {Strip(lines[i])} else {}) + ChapterKeys(lines, i + 1)
  }

  /** Every chapter line among `lines[i..]` gives a key of `ChapterKeys`. */
  lemma {:induction false} ChapterKeysComplete(lines: seq<string>, i: nat)
    requires i <= |lines|
    ensures forall k :: i <= k < |lines| && IsChapterLine(Strip(lines[k])) ==> Strip(lines[k]) in ChapterKeys(lines, i)
    decreases |lines| - i
  {
    if i < |lines| {
      ChapterKeysComplete(lines, i + 1);
      ChapterKeysGrow(lines, i);
      var all, rest := ChapterKeys(lines, i), ChapterKeys(lines, i + 1);
      forall k | i <= k < |lines| && IsChapterLine(Strip(lines[k]))
        ensures Strip(lines[k]) in all
      {
        if k > i {
          assert Strip(lines[k]) in rest;
        }
      }
    }
  }

  lemma ChapterKeysGrow(lines: seq<string>, i: nat)
    requires i < |lines|
    ensures ChapterKeys(lines, i + 1) <= ChapterKeys(lines, i)
    ensures IsChapterLine(Strip(lines[i])) ==> Strip(lines[i]) in ChapterKeys(lines, i)
  {
  }

  /** Every key of `ChapterKeys` comes from a chapter line among `lines[i..]`. */
  lemma {:induction false} ChapterKeysSound(lines: seq<string>, i: nat)
    requires i <= |lines|
    ensures forall x :: x in ChapterKeys(lines, i) ==>
              exists k :: i <= k < |lines| && IsChapterLine(Strip(lines[k])) && Strip(lines[k]) == x
    decreases |lines| - i
  {
    if i < |lines| {
      ChapterKeysSound(lines, i + 1);
      var line := Strip(lines[i]);
      var rest := ChapterKeys(lines, i + 1);
      forall x | x in ChapterKeys(lines, i)
        ensures exists k :: i <= k < |lines| && IsChapterLine(Strip(lines[k])) && Strip(lines[k]) == x
      {
        if x !in rest {
          assert IsChapterLine(Strip(lines[i])) && Strip(lines[i]) == x;
        }
      }
    }
  }

  /** Only a chapter line adds a top-level key. */
  lemma StepKeys(st: PagesState, raw: string)
    requires Valid(st)
    ensures Step(st, raw).structure.Keys == st.structure.Keys + (if IsChapterLine(Strip(raw)) then {Strip(raw)} else {})
  {
    var line := Strip(raw);
    if !IsChapterLine(line) && !IsSectionLine(line) && !IsSubsectionLine(line) {
      assert AppendText(st, line + "\n").structure.Keys == st.structure.Keys;
    }
  }

  lemma {:induction false} ScanKeys(st: PagesState, lines: seq<string>, i: nat)
    requires i <= |lines| && Valid(st)
    ensures Scan(st, lines, i).structure.Keys == st.structure.Keys + ChapterKeys(lines, i)
    decreases |lines| - i
  {
    if i < |lines| {
      StepKeys(st, lines[i]);
      ScanKeys(Step(st, lines[i]), lines, i + 1);
    } else {
      assert ChapterKeys(lines, i) == {};
    }
  }

  /** Every entry's title is its own key, at each level. */
  predicate SubsectionsTitled(m: map<string, SubsectionEntry>) {
    forall u :: u in m ==> m[u].title == u
  }

  predicate SectionTitled(k: string, e: SectionEntry) {
    e.title == k && SubsectionsTitled(e.subsections)
  }

  predicate ChapterTitled(c: string, e: ChapterEntry) {
    e.title == c && forall k :: k in e.sections ==> SectionTitled(k, e.sections[k])
  }

  predicate TitlesAreKeys(st: PagesState) {
    forall c :: c in st.structure ==> ChapterTitled(c, st.structure[c])
  }

  lemma PutSectionTitled(st: PagesState, c: string, k: string, e: SectionEntry)
    requires TitlesAreKeys(st) && c in st.structure && SectionTitled(k, e)
    ensures TitlesAreKeys(st.(structure := PutSection(st.structure, c, k, e)))
  {
    var d := PutSection(st.structure, c, k, e);
    assert ChapterTitled(c, d[c]);
  }

  lemma PutSubsectionTitled(st: PagesState, c: string, k: string, u: string, e: SubsectionEntry)
    requires TitlesAreKeys(st) && c in st.structure && k in st.structure[c].sections && e.title == u
    ensures TitlesAreKeys(st.(structure := PutSubsection(st.structure, c, k, u, e)))
  {
    var sec := st.structure[c].sections[k];
    assert SectionTitled(k, sec);
    var sec' := sec.(subsections := sec.subsections[u := e]);
    assert SectionTitled(k, sec');
    PutSectionTitled(st, c, k, sec');
  }

  lemma AppendTextTitled(st: PagesState, t: string)
    requires Valid(st) && TitlesAreKeys(st)
    ensures TitlesAreKeys(AppendText(st, t))
  {
    var s := st.structure;
    if st.subsection.Attached? {
      var c, k, u := st.chapter.value, st.section.key, st.subsection.key;
      assert SectionTitled(k, s[c].sections[k]);
      var sub := s[c].sections[k].subsections[u];
      PutSubsectionTitled(st, c, k, u, sub.(text := sub.text + t));
    } else if st.subsection.Closed? && st.section.Attached? {
      var c, k := st.chapter.value, st.section.key;
      var sec := s[c].sections[k];
      assert SectionTitled(k, sec);
      PutSectionTitled(st, c, k, sec.(text := sec.text + t));
    } else if st.subsection.Closed? && st.section.Closed? && st.chapter.Some? {
      var c := st.chapter.value;
      assert ChapterTitled(c, s[c]);
    }
  }

  lemma StepKeepsTitles(st: PagesState, raw: string)
    requires Valid(st) && TitlesAreKeys(st)
    ensures TitlesAreKeys(Step(st, raw))
  {
    var line := Strip(raw);
    if IsChapterLine(line) {
    } else if IsSectionLine(line) {
      if st.chapter.Some? {
        PutSectionTitled(st, st.chapter.value, line, SectionEntry(line, map[], ""));
      }
    } else if IsSubsectionLine(line) {
      if st.section.Attached? {
        PutSubsectionTitled(st, st.chapter.value, st.section.key, line, SubsectionEntry(line, ""));
      }
    } else {
      AppendTextTitled(st, line + "\n");
    }
  }

  lemma {:induction false} ScanKeepsTitles(st: PagesState, lines: seq<string>, i: nat)
    requires i <= |lines| && Valid(st) && TitlesAreKeys(st)
    ensures TitlesAreKeys(Scan(st, lines, i))
    decreases |lines| - i
  {
    if i < |lines| {
      StepKeepsTitles(st, lines[i]);
      ScanKeepsTitles(Step(st, lines[i]), lines, i + 1);
    }
  }

  /**
    The top-level keys are exactly the stripped lines that start with
    `Глава`, one whitespace character and a digit, and each entry's title is
    its key (pdf_pages_reading.py:70, 74-81).
  */
  lemma ExtractStructureKeys(text: string)
    ensures var lines := SplitLines(text);
      var r := ExtractStructure(text);
      && (forall k :: 0 <= k < |lines| && IsChapterLine(Strip(lines[k])) ==> Strip(lines[k]) in r)
      && (forall c :: c in r ==> exists k :: 0 <= k < |lines| && IsChapterLine(Strip(lines[k])) && Strip(lines[k]) == c)
      && (forall c :: c in r ==> r[c].title == c)
  {
    ScanKeys(Start, SplitLines(text), 0);
    ChapterKeysComplete(SplitLines(text), 0);
    ChapterKeysSound(SplitLines(text), 0);
    ScanKeepsTitles(Start, SplitLines(text), 0);
  }

  // ---------------------------------------------------------------------
  // Before the first chapter line

  /** No chapter is open and nothing is stored. */
  predicate Empty(st: PagesState) {
    st.chapter.None? && st.structure == map[]
  }

  /** Before any chapter line, no line stores anything: a section is `Loose`, a body line is dropped. */
  lemma NonChapterLineStoresNothing(st: PagesState, raw: string)
    requires Valid(st) && Empty(st) && !IsChapterLine(Strip(raw))
    ensures Empty(Step(st, raw))
  {
  }

  /** No chapter line among `lines[i..j]`, one line at a time. */
  predicate NoChapterIn(lines: seq<string>, i: nat, j: nat)
    requires i <= j <= |lines|
    decreases j - i
  {
    i == j || (!IsChapterLine(Strip(lines[i])) && NoChapterIn(lines, i + 1, j))
  }

  lemma {:induction false} NoChapterInFromAll(lines: seq<string>, i: nat, j: nat)
    requires i <= j <= |lines| && forall k :: i <= k < j ==> !IsChapterLine(Strip(lines[k]))
    ensures NoChapterIn(lines, i, j)
    decreases j - i
  {
    if i < j {
      NoChapterInFromAll(lines, i + 1, j);
    }
  }

  lemma {:induction false} PreludeDropped(st: PagesState, lines: seq<string>, i: nat, j: nat)
    requires Valid(st) && Empty(st) && i <= j <= |lines| && NoChapterIn(lines, i, j)
    requires j == |lines| || IsChapterLine(Strip(lines[j]))
    ensures Scan(st, lines, i).structure == Scan(Start, lines, j).structure
    decreases j - i
  {
    if i < j {
      NonChapterLineStoresNothing(st, lines[i]);
      PreludeDropped(Step(st, lines[i]), lines, i + 1, j);
    } else if j < |lines| {
      ChapterLineForgetsCursors(st, Start, lines[j]);
    }
  }

  /** A chapter line's step looks at no cursor: two states with the same outline take the same step. */
  lemma ChapterLineForgetsCursors(st: PagesState, st2: PagesState, raw: string)
    requires Valid(st) && Valid(st2) && st.structure == st2.structure && IsChapterLine(Strip(raw))
    ensures Step(st, raw) == Step(st2, raw)
  {
  }

  /**
    Everything before the first chapter line, headings included, leaves no
    trace in the result: body lines there find no open entry
    (pdf_pages_reading.py:95-101), and a section there is stored nowhere and
    takes the body lines after it with it (pdf_pages_reading.py:85-88).
  */
  lemma BeforeFirstChapterDropped(lines: seq<string>, j: nat)
    requires j <= |lines| && forall k :: 0 <= k < j ==> !IsChapterLine(Strip(lines[k]))
    requires j == |lines| || IsChapterLine(Strip(lines[j]))
    ensures Scan(Start, lines, 0).structure == Scan(Start, lines, j).structure
  {
    NoChapterInFromAll(lines, 0, j);
    PreludeDropped(Start, lines, 0, j);
  }

  // ---------------------------------------------------------------------
  // Only the stripped lines count

  lemma {:induction false} ScanSeesStrippedLines(st: PagesState, a: seq<string>, b: seq<string>, i: nat)
    requires Valid(st) && i <= |a| == |b|
    requires forall k :: i <= k < |a| ==> Strip(a[k]) == Strip(b[k])
    ensures Scan(st, a, i) == Scan(st, b, i)
    decreases |a| - i
  {
    if i < |a| {
      StepSeesStrippedLine(st, a[i], b[i]);
      ScanSeesStrippedLines(Step(st, a[i]), a, b, i + 1);
    }
  }

  lemma StepSeesStrippedLine(st: PagesState, a: string, b: string)
    requires Valid(st) && Strip(a) == Strip(b)
    ensures Step(st, a) == Step(st, b)
  {
  }

  /**
    Two texts whose lines strip to the same lines give the same result:
    whitespace around a line never changes how it is classified or what is
    stored for it (pdf_pages_reading.py:76).
  */
  lemma OnlyStrippedLinesCount(text1: string, text2: string)
    requires |SplitLines(text1)| == |SplitLines(text2)|
    requires forall k :: 0 <= k < |SplitLines(text1)| ==> Strip(SplitLines(text1)[k]) == Strip(SplitLines(text2)[k])
    ensures ExtractStructure(text1) == ExtractStructure(text2)
  {
    ScanSeesStrippedLines(Start, SplitLines(text1), SplitLines(text2), 0);
  }
}
