/**
  non_json.py `extract_titles_from_pdf` (non_json.py:12-55) on the
  dictionaries it creates, held by reference.

  The dictionaries the cursors can point to are the `sections` dictionary of
  each chapter and the `subsections` dictionary of each section; they live in
  a heap, one list per kind, and a reference is an index into that list.  A
  new dictionary is appended, so it has a reference no one else holds.  The
  chapter and section records themselves are never written after they are
  created, so they are values holding references.

  `ExtractTitlesFromPages` is the page loop with its two passes, writing
  through `current_section` and `current_subsection` as the code does.  Its
  loops keep `Refines`: reading the heap out from the top-level dictionary
  gives the outline of the key-based description `TitlesOutline`, and the two
  cursors are the dictionaries that description names.  The ghost owner
  lists record, for each dictionary, the entry it was created for; they show
  that no two entries of the outline share a dictionary, so a write through a
  cursor changes one entry only.
*/
module TitlesStore {
  import opened Wrappers
  import opened Text
  import opened TitlesPatterns
  import opened TitlesOutline
  import opened Outline

  /** A dictionary held by reference: its index in the heap's list of its kind. */
  type Ref = nat

  /** `{"title": ..., "sections": <dict>}` */
  datatype ChapterObj = ChapterObj(title: string, sections: Ref)

  /** `{"title": ..., "subsections": <dict>}` */
  datatype SectionObj = SectionObj(title: string, subsections: Ref)

  /** The top-level dictionary and every `sections` and `subsections` dictionary created so far. */
  datatype Heap = Heap(top: map<string, ChapterObj>, sectionDicts: seq<map<string, SectionObj>>, subsectionDicts: seq<map<string, Subsection>>)

  const EmptyHeap: Heap := Heap(map[], [], [])

  /** `structure[c]["sections"]` */
  function SectionsOf(heap: Heap, c: string): map<string, SectionObj>
    requires c in heap.top && heap.top[c].sections < |heap.sectionDicts|
  {
    heap.sectionDicts[heap.top[c].sections]
  }

  /**
    Every reference is in range, every chapter's `sections` dictionary was
    created for that chapter, and every section's `subsections` dictionary
    for that chapter and section.
  */
  predicate HeapOk(heap: Heap, secOwner: seq<string>, subOwner: seq<(string, string)>) {
    && |secOwner| == |heap.sectionDicts| && |subOwner| == |heap.subsectionDicts|
    && InRange(heap)
    && (forall c :: c in heap.top ==> secOwner[heap.top[c].sections] == c)
    && (forall c, s :: c in heap.top && s in SectionsOf(heap, c) ==> subOwner[SectionsOf(heap, c)[s].subsections] == (c, s))
  }

  /** Every reference is in range. */
  predicate InRange(heap: Heap) {
    && (forall c :: c in heap.top ==> heap.top[c].sections < |heap.sectionDicts|)
    && (forall r, s :: 0 <= r < |heap.sectionDicts| && s in heap.sectionDicts[r] ==>
          heap.sectionDicts[r][s].subsections < |heap.subsectionDicts|)
  }

  /** Reading one section out of the heap. */
  function ResolveSections(sections: map<string, SectionObj>, subsectionDicts: seq<map<string, Subsection>>): map<string, Section>
    requires forall s :: s in sections ==> sections[s].subsections < |subsectionDicts|
  {
    map s | s in sections :: Section(sections[s].title, subsectionDicts[sections[s].subsections])
  }

  function ResolveChapter(heap: Heap, c: string): Chapter
    requires c in heap.top && heap.top[c].sections < |heap.sectionDicts|
    requires forall s :: s in SectionsOf(heap, c) ==> SectionsOf(heap, c)[s].subsections < |heap.subsectionDicts|
  {
    Chapter(heap.top[c].title, ResolveSections(SectionsOf(heap, c), heap.subsectionDicts))
  }

  /** The outline as `json.dump` would write it: the heap read out from the top-level dictionary. */
  function Resolve(heap: Heap): Structure
    requires InRange(heap)
  {
    map c | c in heap.top :: ResolveChapter(heap, c)
  }

  /** The subsections dictionary of section `s` of chapter `c` is `r`. */
  predicate Holds(heap: Heap, c: string, s: string, r: Ref)
    requires forall c :: c in heap.top ==> heap.top[c].sections < |heap.sectionDicts|
  {
    c in heap.top && s in SectionsOf(heap, c) && SectionsOf(heap, c)[s].subsections == r
  }

  /**
    The heap and the two cursors are what the key-based state `st` describes:
    the outline reads out as `st.structure`; `current_section` is the
    `sections` dictionary of chapter `st.chapter`; `current_subsection` was
    created for the entry `st.subsection` names, and that entry still holds
    it exactly when the cursor is attached.
  */
  predicate Refines(heap: Heap, currentSection: Option<Ref>, currentSubsection: Option<Ref>,
                    secOwner: seq<string>, subOwner: seq<(string, string)>, st: TitlesState)
  {
    && HeapOk(heap, secOwner, subOwner)
    && Resolve(heap) == st.structure
    && (st.chapter.None? ==> currentSection.None?)
    && (st.chapter.Some? ==> st.chapter.value in heap.top && currentSection == Some(heap.top[st.chapter.value].sections))
    && (st.subsection.None? ==> currentSubsection.None?)
    && (st.subsection.Some? ==>
          && currentSubsection.Some? && currentSubsection.value < |heap.subsectionDicts|
          && subOwner[currentSubsection.value] == (st.subsection.value.chapter, st.subsection.value.section)
          && (st.subsection.value.attached <==>
                Holds(heap, st.subsection.value.chapter, st.subsection.value.section, currentSubsection.value)))
  }

  // ---------------------------------------------------------------------
  // One write each, refined

  /** `structure[n] = {"title": title, "sections": {}}` with a fresh `sections` dictionary (non_json.py:28-31). */
  function StoreChapter(heap: Heap, n: string, title: string): Heap {
    Heap(heap.top[n := ChapterObj(title, |heap.sectionDicts|)], heap.sectionDicts + [map[]], heap.subsectionDicts)
  }

  /** A chapter store changes no other chapter's `sections` dictionary and gives chapter `n` an empty one. */
  lemma StoreChapterSections(heap: Heap, n: string, title: string)
    requires forall c :: c in heap.top ==> heap.top[c].sections < |heap.sectionDicts|
    ensures var heap' := StoreChapter(heap, n, title);
      && SectionsOf(heap', n) == map[]
      && forall c :: c in heap.top && c != n ==> SectionsOf(heap', c) == SectionsOf(heap, c)
  {
  }

  /** A chapter store keeps the heap well-formed. */
  lemma StoreChapterOk(heap: Heap, secOwner: seq<string>, subOwner: seq<(string, string)>, n: string, title: string)
    requires HeapOk(heap, secOwner, subOwner)
    ensures HeapOk(StoreChapter(heap, n, title), secOwner + [n], subOwner)
  {
    var heap' := StoreChapter(heap, n, title);
    StoreChapterSections(heap, n, title);
    forall r, s | 0 <= r < |heap'.sectionDicts| && s in heap'.sectionDicts[r]
      ensures heap'.sectionDicts[r][s].subsections < |heap'.subsectionDicts|
    {
      assert r < |heap.sectionDicts| && heap'.sectionDicts[r] == heap.sectionDicts[r];
    }
  }

  /** A chapter store reads out as the chapter stored with no sections. */
  lemma StoreChapterResolve(heap: Heap, secOwner: seq<string>, subOwner: seq<(string, string)>, n: string, title: string)
    requires HeapOk(heap, secOwner, subOwner)
    ensures HeapOk(StoreChapter(heap, n, title), secOwner + [n], subOwner)
    ensures Resolve(StoreChapter(heap, n, title)) == Resolve(heap)[n := Chapter(title, map[])]
  {
    var heap' := StoreChapter(heap, n, title);
    StoreChapterOk(heap, secOwner, subOwner, n, title);
    StoreChapterSections(heap, n, title);
    var expected := Resolve(heap)[n := Chapter(title, map[])];
    forall c | c in heap'.top
      ensures ResolveChapter(heap', c) == expected[c]
    {
      if c != n {
        assert ResolveChapter(heap', c) == ResolveChapter(heap, c);
      }
    }
  }

  /** The chapter pass's write refines `ChapterLine`. */
  lemma ChapterLineRefines(heap: Heap, currentSection: Option<Ref>, currentSubsection: Option<Ref>,
                           secOwner: seq<string>, subOwner: seq<(string, string)>, st: TitlesState, line: string)
    requires Valid(st) && Refines(heap, currentSection, currentSubsection, secOwner, subOwner, st)
    requires ChapterTitleMatch(line).Some?
    ensures var h := ChapterTitleMatch(line).value;
      Refines(StoreChapter(heap, h.number, Strip(h.rest)), Some(|heap.sectionDicts|), currentSubsection,
              secOwner + [h.number], subOwner, ChapterLine(st, line))
  {
    var h := ChapterTitleMatch(line).value;
    StoreChapterResolve(heap, secOwner, subOwner, h.number, Strip(h.rest));
    StoreChapterSections(heap, h.number, Strip(h.rest));
    var heap' := StoreChapter(heap, h.number, Strip(h.rest));
    if st.subsection.Some? {
      var sub := st.subsection.value;
      if sub.chapter == h.number {
        assert !Holds(heap', sub.chapter, sub.section, currentSubsection.value);
      } else {
        assert Holds(heap', sub.chapter, sub.section, currentSubsection.value) == Holds(heap, sub.chapter, sub.section, currentSubsection.value);
      }
    }
  }

  /** `current_section[number] = {"title": title, "subsections": {}}` with a fresh `subsections` dictionary (non_json.py:42-45). */
  function StoreSection(heap: Heap, sections: Ref, number: string, title: string): Heap
    requires sections < |heap.sectionDicts|
  {
    var dict := heap.sectionDicts[sections];
    Heap(heap.top, heap.sectionDicts[sections := dict[number := SectionObj(title, |heap.subsectionDicts|)]],
         heap.subsectionDicts + [map[]])
  }

  /** Writing through chapter `c`'s `sections` dictionary changes that chapter's sections only: no other chapter shares it. */
  lemma StoreSectionSections(heap: Heap, secOwner: seq<string>, subOwner: seq<(string, string)>, c: string, number: string, title: string)
    requires HeapOk(heap, secOwner, subOwner) && c in heap.top
    ensures var heap' := StoreSection(heap, heap.top[c].sections, number, title);
      && SectionsOf(heap', c) == SectionsOf(heap, c)[number := SectionObj(title, |heap.subsectionDicts|)]
      && forall k :: k in heap.top && k != c ==> SectionsOf(heap', k) == SectionsOf(heap, k)
  {
    var heap' := StoreSection(heap, heap.top[c].sections, number, title);
    forall k | k in heap.top && k != c
      ensures SectionsOf(heap', k) == SectionsOf(heap, k)
    {
      assert secOwner[heap.top[k].sections] != secOwner[heap.top[c].sections];
    }
  }

  /** A section store keeps the heap well-formed, the new dictionary owned by the new section. */
  lemma StoreSectionOk(heap: Heap, secOwner: seq<string>, subOwner: seq<(string, string)>, c: string, number: string, title: string)
    requires HeapOk(heap, secOwner, subOwner) && c in heap.top
    ensures HeapOk(StoreSection(heap, heap.top[c].sections, number, title), secOwner, subOwner + [(c, number)])
  {
    var heap' := StoreSection(heap, heap.top[c].sections, number, title);
    var subOwner' := subOwner + [(c, number)];
    StoreSectionSections(heap, secOwner, subOwner, c, number, title);
    forall r, s | 0 <= r < |heap'.sectionDicts| && s in heap'.sectionDicts[r]
      ensures heap'.sectionDicts[r][s].subsections < |heap'.subsectionDicts|
    {
      if r != heap.top[c].sections || s != number {
        assert heap'.sectionDicts[r][s] == heap.sectionDicts[r][s];
      }
    }
    forall k, s | k in heap'.top && s in SectionsOf(heap', k)
      ensures subOwner'[SectionsOf(heap', k)[s].subsections] == (k, s)
    {
      if k != c || s != number {
        assert SectionsOf(heap', k)[s] == SectionsOf(heap, k)[s];
      }
    }
  }

  /** Extending the `subsections` list changes no section that reads within the old one. */
  lemma ResolveSectionsExtend(sections: map<string, SectionObj>, subsectionDicts: seq<map<string, Subsection>>, more: seq<map<string, Subsection>>)
    requires forall s :: s in sections ==> sections[s].subsections < |subsectionDicts|
    ensures ResolveSections(sections, subsectionDicts + more) == ResolveSections(sections, subsectionDicts)
  {
  }

  /** A new section with a fresh, empty `subsections` dictionary reads out as a section with no subsections. */
  lemma ResolveSectionsPut(sections: map<string, SectionObj>, subsectionDicts: seq<map<string, Subsection>>, number: string, title: string)
    requires forall s :: s in sections ==> sections[s].subsections < |subsectionDicts|
    ensures ResolveSections(sections[number := SectionObj(title, |subsectionDicts|)], subsectionDicts + [map[]])
         == ResolveSections(sections, subsectionDicts)[number := Section(title, map[])]
  {
  }

  /** A section store reads out as `PutSection` on chapter `c`. */
  lemma StoreSectionResolve(heap: Heap, secOwner: seq<string>, subOwner: seq<(string, string)>, c: string, number: string, title: string)
    requires HeapOk(heap, secOwner, subOwner) && c in heap.top
    ensures HeapOk(StoreSection(heap, heap.top[c].sections, number, title), secOwner, subOwner + [(c, number)])
    ensures Resolve(StoreSection(heap, heap.top[c].sections, number, title))
         == PutSection(Resolve(heap), c, number, title)
  {
    var heap' := StoreSection(heap, heap.top[c].sections, number, title);
    var subOwner' := subOwner + [(c, number)];
    StoreSectionOk(heap, secOwner, subOwner, c, number, title);
    StoreSectionSections(heap, secOwner, subOwner, c, number, title);
    var expected := PutSection(Resolve(heap), c, number, title);
    forall k | k in heap'.top
      ensures ResolveChapter(heap', k) == expected[k]
    {
      ResolveSectionsExtend(SectionsOf(heap, k), heap.subsectionDicts, [map[]]);
      if k == c {
        ResolveSectionsPut(SectionsOf(heap, c), heap.subsectionDicts, number, title);
      }
    }
  }

  /** The section branch's write refines `SectionLine`. */
  lemma SectionLineRefines(heap: Heap, currentSection: Option<Ref>, currentSubsection: Option<Ref>,
                           secOwner: seq<string>, subOwner: seq<(string, string)>, st: TitlesState, line: string)
    requires Valid(st) && Refines(heap, currentSection, currentSubsection, secOwner, subOwner, st)
    requires SectionTitleMatch(line).Some? && st.chapter.Some?
    ensures currentSection.Some? && currentSection.value < |heap.sectionDicts|
    ensures var h := SectionTitleMatch(line).value;
      Refines(StoreSection(heap, currentSection.value, h.number, Strip(h.rest)), currentSection, Some(|heap.subsectionDicts|),
              secOwner, subOwner + [(st.chapter.value, h.number)], SectionLine(st, line).value)
  {
    var h := SectionTitleMatch(line).value;
    var c := st.chapter.value;
    StoreSectionResolve(heap, secOwner, subOwner, c, h.number, Strip(h.rest));
    StoreSectionSections(heap, secOwner, subOwner, c, h.number, Strip(h.rest));
  }

  /** `current_subsection[number] = {"title": title}` (non_json.py:51-53). */
  function StoreSubsection(heap: Heap, subsections: Ref, number: string, title: string): Heap
    requires subsections < |heap.subsectionDicts|
  {
    var dict := heap.subsectionDicts[subsections];
    heap.(subsectionDicts := heap.subsectionDicts[subsections := dict[number := Subsection(title)]])
  }

  /** Sections that do not hold dictionary `r` read out the same after a write to it. */
  lemma ResolveSectionsUntouched(sections: map<string, SectionObj>, subsectionDicts: seq<map<string, Subsection>>, r: Ref, v: map<string, Subsection>)
    requires r < |subsectionDicts| && forall s :: s in sections ==> sections[s].subsections < |subsectionDicts|
    requires forall s :: s in sections ==> sections[s].subsections != r
    ensures ResolveSections(sections, subsectionDicts[r := v]) == ResolveSections(sections, subsectionDicts)
  {
  }

  /** When section `s0` alone holds dictionary `r`, a write to it changes that section's subsections only. */
  lemma ResolveSectionsTouched(sections: map<string, SectionObj>, subsectionDicts: seq<map<string, Subsection>>, r: Ref, v: map<string, Subsection>, s0: string)
    requires r < |subsectionDicts| && forall s :: s in sections ==> sections[s].subsections < |subsectionDicts|
    requires s0 in sections && sections[s0].subsections == r
    requires forall s :: s in sections && s != s0 ==> sections[s].subsections != r
    ensures ResolveSections(sections, subsectionDicts[r := v]) == ResolveSections(sections, subsectionDicts)[s0 := Section(sections[s0].title, v)]
  {
  }

  /** A subsection store keeps the heap well-formed and every cursor relation: it changes no reference. */
  lemma StoreSubsectionOk(heap: Heap, secOwner: seq<string>, subOwner: seq<(string, string)>, r: Ref, number: string, title: string)
    requires HeapOk(heap, secOwner, subOwner) && r < |heap.subsectionDicts|
    ensures var heap' := StoreSubsection(heap, r, number, title);
      && HeapOk(heap', secOwner, subOwner)
      && (forall c :: c in heap.top ==> SectionsOf(heap', c) == SectionsOf(heap, c))
      && (forall c, s, q :: Holds(heap', c, s, q) == Holds(heap, c, s, q))
  {
    var heap' := StoreSubsection(heap, r, number, title);
    assert heap'.top == heap.top && heap'.sectionDicts == heap.sectionDicts;
  }

  /** Writing through an attached cursor reads out as `PutSubsection` on its section. */
  lemma StoreSubsectionAttached(heap: Heap, secOwner: seq<string>, subOwner: seq<(string, string)>, c: string, s: string, number: string, title: string)
    requires HeapOk(heap, secOwner, subOwner) && c in heap.top && s in SectionsOf(heap, c)
    ensures var r := SectionsOf(heap, c)[s].subsections;
      && r < |heap.subsectionDicts|
      && HeapOk(StoreSubsection(heap, r, number, title), secOwner, subOwner)
      && Resolve(StoreSubsection(heap, r, number, title))
         == PutSubsection(Resolve(heap), c, s, number, title)
  {
    var r := SectionsOf(heap, c)[s].subsections;
    var heap' := StoreSubsection(heap, r, number, title);
    var v := heap.subsectionDicts[r][number := Subsection(title)];
    StoreSubsectionOk(heap, secOwner, subOwner, r, number, title);
    var expected := PutSubsection(Resolve(heap), c, s, number, title);
    forall k | k in heap'.top
      ensures ResolveChapter(heap', k) == expected[k]
    {
      var d := SectionsOf(heap, k);
      if k == c {
        ResolveSectionsTouched(d, heap.subsectionDicts, r, v, s);
      } else {
        ResolveSectionsUntouched(d, heap.subsectionDicts, r, v);
      }
    }
  }

  /** Writing through a cut-off cursor changes nothing in the outline. */
  lemma StoreSubsectionDetached(heap: Heap, secOwner: seq<string>, subOwner: seq<(string, string)>, r: Ref, c: string, s: string, number: string, title: string)
    requires HeapOk(heap, secOwner, subOwner) && r < |heap.subsectionDicts|
    requires subOwner[r] == (c, s) && !Holds(heap, c, s, r)
    ensures HeapOk(StoreSubsection(heap, r, number, title), secOwner, subOwner)
    ensures Resolve(StoreSubsection(heap, r, number, title)) == Resolve(heap)
  {
    var heap' := StoreSubsection(heap, r, number, title);
    var v := heap.subsectionDicts[r][number := Subsection(title)];
    StoreSubsectionOk(heap, secOwner, subOwner, r, number, title);
    forall k | k in heap'.top
      ensures ResolveChapter(heap', k) == ResolveChapter(heap, k)
    {
      ResolveSectionsUntouched(SectionsOf(heap, k), heap.subsectionDicts, r, v);
    }
  }

  /** The subsection branch's write refines `SectionLine`. */
  lemma SubsectionLineRefines(heap: Heap, currentSection: Option<Ref>, currentSubsection: Option<Ref>,
                              secOwner: seq<string>, subOwner: seq<(string, string)>, st: TitlesState, line: string)
    requires Valid(st) && Refines(heap, currentSection, currentSubsection, secOwner, subOwner, st)
    requires SectionTitleMatch(line).None? && SubsectionTitleMatch(line).Some? && st.subsection.Some?
    ensures currentSubsection.Some? && currentSubsection.value < |heap.subsectionDicts|
    ensures var h := SubsectionTitleMatch(line).value;
      Refines(StoreSubsection(heap, currentSubsection.value, h.number, Strip(h.rest)), currentSection, currentSubsection,
              secOwner, subOwner, SectionLine(st, line).value)
  {
    var h := SubsectionTitleMatch(line).value;
    var sub := st.subsection.value;
    var r := currentSubsection.value;
    StoreSubsectionOk(heap, secOwner, subOwner, r, h.number, Strip(h.rest));
    if sub.attached {
      StoreSubsectionAttached(heap, secOwner, subOwner, sub.chapter, sub.section, h.number, Strip(h.rest));
    } else {
      StoreSubsectionDetached(heap, secOwner, subOwner, r, sub.chapter, sub.section, h.number, Strip(h.rest));
    }
  }

  // ---------------------------------------------------------------------
  // The page loop

  /** One line of the chapter pass (non_json.py:24-32), writing to the heap. */
  method ChapterLineStore(heap: Heap, currentSection: Option<Ref>, currentSubsection: Option<Ref>,
                          ghost secOwner: seq<string>, ghost subOwner: seq<(string, string)>, ghost st: TitlesState, line: string)
    returns (heap': Heap, currentSection': Option<Ref>, ghost secOwner': seq<string>)
    requires Valid(st) && Refines(heap, currentSection, currentSubsection, secOwner, subOwner, st)
    ensures Refines(heap', currentSection', currentSubsection, secOwner', subOwner, ChapterLine(st, line))
  {
    heap', currentSection', secOwner' := heap, currentSection, secOwner;
    var m := ChapterTitleMatch(line);
    if m.Some? {
      ChapterLineRefines(heap, currentSection, currentSubsection, secOwner, subOwner, st, line);
      currentSection' := Some(|heap.sectionDicts|);
      secOwner' := secOwner + [m.value.number];
      heap' := StoreChapter(heap, m.value.number, Strip(m.value.rest));
    }
  }

  /** The chapter pass over one page's lines (non_json.py:23-32), writing to the heap. */
  method ChaptersPassStore(heap: Heap, currentSection: Option<Ref>, currentSubsection: Option<Ref>,
                           ghost secOwner: seq<string>, ghost subOwner: seq<(string, string)>, ghost st: TitlesState, lines: seq<string>)
    returns (heap': Heap, currentSection': Option<Ref>, ghost secOwner': seq<string>)
    requires Valid(st) && Refines(heap, currentSection, currentSubsection, secOwner, subOwner, st)
    ensures Refines(heap', currentSection', currentSubsection, secOwner', subOwner, ChaptersPass(st, lines, 0))
  {
    heap', currentSection', secOwner' := heap, currentSection, secOwner;
    ghost var cur := st;
    var i := 0;
    while i < |lines|
      invariant i <= |lines| && Valid(cur)
      invariant Refines(heap', currentSection', currentSubsection, secOwner', subOwner, cur)
      invariant ChaptersPass(cur, lines, i) == ChaptersPass(st, lines, 0)
      decreases |lines| - i
    {
      heap', currentSection', secOwner' := ChapterLineStore(heap', currentSection', currentSubsection, secOwner', subOwner, cur, lines[i]);
      cur := ChapterLine(cur, lines[i]);
      i := i + 1;
    }
  }

  /** One line of the section pass (non_json.py:36-53), writing through the cursors; `None` when the line raises. */
  method SectionLineStore(heap: Heap, currentSection: Option<Ref>, currentSubsection: Option<Ref>,
                          ghost secOwner: seq<string>, ghost subOwner: seq<(string, string)>, ghost st: TitlesState, line: string)
    returns (ok: bool, heap': Heap, currentSubsection': Option<Ref>, ghost subOwner': seq<(string, string)>, ghost next: TitlesState)
    requires Valid(st) && Refines(heap, currentSection, currentSubsection, secOwner, subOwner, st)
    ensures !ok ==> SectionLine(st, line) == Failure(NoCurrentChapter(line))
    ensures ok ==> (SectionLine(st, line) == Success(next) && Valid(next)
                    && Refines(heap', currentSection, currentSubsection', secOwner, subOwner', next))
  {
    ok, heap', currentSubsection', subOwner' := true, heap, currentSubsection, subOwner;
    next := if SectionLine(st, line).Success? then SectionLine(st, line).value else st;
    var sm := SectionTitleMatch(line);
    if sm.Some? {
      if currentSection.None? {
        ok := false;
        return;
      }
      SectionLineRefines(heap, currentSection, currentSubsection, secOwner, subOwner, st, line);
      currentSubsection' := Some(|heap.subsectionDicts|);
      subOwner' := subOwner + [(st.chapter.value, sm.value.number)];
      heap' := StoreSection(heap, currentSection.value, sm.value.number, Strip(sm.value.rest));
    } else {
      var ssm := SubsectionTitleMatch(line);
      if ssm.Some? && currentSubsection.Some? {
        SubsectionLineRefines(heap, currentSection, currentSubsection, secOwner, subOwner, st, line);
        heap' := StoreSubsection(heap, currentSubsection.value, ssm.value.number, Strip(ssm.value.rest));
      }
    }
  }

  /** The section pass over one page's lines (non_json.py:35-53); `ok` is false when a line raised. */
  method SectionsPassStore(heap: Heap, currentSection: Option<Ref>, currentSubsection: Option<Ref>,
                           ghost secOwner: seq<string>, ghost subOwner: seq<(string, string)>, ghost st: TitlesState, lines: seq<string>)
    returns (ok: bool, heap': Heap, currentSubsection': Option<Ref>, ghost subOwner': seq<(string, string)>, failed: string)
    requires Valid(st) && Refines(heap, currentSection, currentSubsection, secOwner, subOwner, st)
    ensures !ok ==> SectionsPass(st, lines, 0) == Failure(NoCurrentChapter(failed))
    ensures ok ==> (SectionsPass(st, lines, 0).Success?
                    && Refines(heap', currentSection, currentSubsection', secOwner, subOwner', SectionsPass(st, lines, 0).value))
  {
    heap', currentSubsection', subOwner', failed := heap, currentSubsection, subOwner, "";
    ghost var cur := st;
    var i := 0;
    while i < |lines|
      invariant i <= |lines| && Valid(cur)
      invariant Refines(heap', currentSection, currentSubsection', secOwner, subOwner', cur)
      invariant SectionsPass(cur, lines, i) == SectionsPass(st, lines, 0)
      decreases |lines| - i
    {
      ghost var next;
      ok, heap', currentSubsection', subOwner', next := SectionLineStore(heap', currentSection, currentSubsection', secOwner, subOwner', cur, lines[i]);
      if !ok {
        failed := lines[i];
        return;
      }
      cur := next;
      i := i + 1;
    }
    ok := true;
  }

  /**
    `extract_titles_from_pdf` (non_json.py:12-55) over the pages' lines,
    `None` for a page with no text: the outline it builds, or the error it
    raises on a section line before any chapter line.
  */
  method ExtractTitlesFromPages(pages: seq<Option<seq<string>>>) returns (r: Result<Structure, TitlesError>)
    ensures r == ExtractTitles(pages)
  {
    var heap := EmptyHeap;
    var currentSection: Option<Ref> := None;
    var currentSubsection: Option<Ref> := None;
    ghost var secOwner: seq<string> := [];
    ghost var subOwner: seq<(string, string)> := [];
    ghost var st := Start;
    var p := 0;
    while p < |pages|
      invariant p <= |pages| && Valid(st)
      invariant Refines(heap, currentSection, currentSubsection, secOwner, subOwner, st)
      invariant Pages(st, pages, p) == Pages(Start, pages, 0)
      decreases |pages| - p
    {
      if pages[p].Some? {
        var lines := StripAll(pages[p].value);
        heap, currentSection, secOwner := ChaptersPassStore(heap, currentSection, currentSubsection, secOwner, subOwner, st, lines);
        ghost var mid := ChaptersPass(st, lines, 0);
        var ok, failed;
        ok, heap, currentSubsection, subOwner, failed := SectionsPassStore(heap, currentSection, currentSubsection, secOwner, subOwner, mid, lines);
        if !ok {
          return Failure(NoCurrentChapter(failed));
        }
      }
      st := Page(st, pages[p]).value;
      p := p + 1;
    }
    r := Success(Resolve(heap));
  }
}
