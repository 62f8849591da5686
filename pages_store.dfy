/**
  pdf_pages_reading.py `extract_structure_from_text` (pdf_pages_reading.py:65-103)
  on the dictionaries it creates, held by reference.

  Every dictionary the loop creates (a chapter, a section or a subsection)
  is a cell of an arena, and a reference is its index there; a new
  dictionary is appended, so no one else holds its reference.  A cell's
  `children` are its `sections` or `subsections` dictionary, which the code
  only ever reaches through the cell.  The three cursors are references, and
  writing through one changes every place that holds the same reference.

  `ExtractStructureFromText` is the loop, writing through the cursors as the
  code does.  It keeps `Refines`: the arena read out from the top-level
  dictionary is the outline of the key-based description `PagesOutline`,
  and each cursor is the cell that description names, or a cell that
  nothing read from the top-level dictionary holds.  The ghost owner list
  records, for each cell, where it was stored when created; it shows that no
  two places in the outline hold the same cell.
*/
module PagesStore {
  import opened Wrappers
  import opened Text
  import opened PagesPatterns
  import opened PagesOutline

  /** A dictionary held by reference: its index in the arena. */
  type Ref = nat

  /** One dictionary: its "title", its "sections" or "subsections" (by reference) and its "text". */
  datatype Cell = Cell(title: string, children: map<string, Ref>, text: string)

  /** The top-level dictionary and every dictionary created so far. */
  datatype Arena = Arena(top: map<string, Ref>, cells: seq<Cell>)

  /** Where a cell was stored when it was created: under a top-level key, under a key of another cell, or nowhere. */
  datatype Owner = Top(key: string) | Child(parent: Ref, key: string) | Unlinked

  /** Every reference a cell holds is in range. */
  predicate CellsInRange(cells: seq<Cell>) {
    forall r, k :: 0 <= r < |cells| && k in cells[r].children ==> cells[r].children[k] < |cells|
  }

  predicate InRange(a: Arena) {
    CellsInRange(a.cells) && forall k :: k in a.top ==> a.top[k] < |a.cells|
  }

  /** Each reference in the outline is held where its cell was stored when created. */
  predicate Ok(a: Arena, owner: seq<Owner>) {
    && |owner| == |a.cells| && InRange(a)
    && (forall k :: k in a.top ==> owner[a.top[k]] == Top(k))
    && (forall r, k :: 0 <= r < |a.cells| && k in a.cells[r].children ==> owner[a.cells[r].children[k]] == Child(r, k))
  }

  // ---------------------------------------------------------------------
  // Reading the arena out

  function SubsectionAt(cells: seq<Cell>, r: Ref): SubsectionEntry
    requires r < |cells|
  {
    SubsectionEntry(cells[r].title, cells[r].text)
  }

  function SectionAt(cells: seq<Cell>, r: Ref): SectionEntry
    requires r < |cells| && CellsInRange(cells)
  {
    var ch := cells[r].children;
    SectionEntry(cells[r].title, map u | u in ch :: SubsectionAt(cells, ch[u]), cells[r].text)
  }

  function ChapterAt(cells: seq<Cell>, r: Ref): ChapterEntry
    requires r < |cells| && CellsInRange(cells)
  {
    var ch := cells[r].children;
    ChapterEntry(cells[r].title, map s | s in ch :: SectionAt(cells, ch[s]), cells[r].text)
  }

  /** The outline as `json.dump` would write it: the arena read out from the top-level dictionary. */
  function Resolve(a: Arena): Document
    requires InRange(a)
  {
    map k | k in a.top :: ChapterAt(a.cells, a.top[k])
  }

  // ---------------------------------------------------------------------
  // The writes the loop makes

  /** A new dictionary `{"title": title, ..., "text": ""}` with empty children. */
  function NewCell(a: Arena, title: string): Arena {
    a.(cells := a.cells + [Cell(title, map[], "")])
  }

  /** `structure[k] = <cell r>` */
  function SetTop(a: Arena, k: string, r: Ref): Arena {
    a.(top := a.top[k := r])
  }

  /** `<cell p>['sections'][k] = <cell r>` or `<cell p>['subsections'][k] = <cell r>` */
  function Link(a: Arena, p: Ref, k: string, r: Ref): Arena
    requires p < |a.cells|
  {
    a.(cells := a.cells[p := a.cells[p].(children := a.cells[p].children[k := r])])
  }

  /** `<cell r>['text'] += t` */
  function Append(a: Arena, r: Ref, t: string): Arena
    requires r < |a.cells|
  {
    a.(cells := a.cells[r := a.cells[r].(text := a.cells[r].text + t)])
  }

  // ---------------------------------------------------------------------
  // Frames

  /** Reading section `q` does not read cell `p`. */
  predicate SectionAvoids(cells: seq<Cell>, q: Ref, p: Ref)
    requires q < |cells|
  {
    q != p && forall u :: u in cells[q].children ==> cells[q].children[u] != p
  }

  /** Reading chapter `q` does not read cell `p`. */
  predicate ChapterAvoids(cells: seq<Cell>, q: Ref, p: Ref)
    requires q < |cells| && CellsInRange(cells)
  {
    q != p && forall s :: s in cells[q].children ==> SectionAvoids(cells, cells[q].children[s], p)
  }

  lemma SubsectionFrame(cells: seq<Cell>, p: Ref, x: Cell, q: Ref)
    requires p < |cells| && q < |cells| && q != p
    ensures SubsectionAt(cells[p := x], q) == SubsectionAt(cells, q)
  {
  }

  lemma SectionFrame(cells: seq<Cell>, p: Ref, x: Cell, q: Ref)
    requires p < |cells| && q < |cells| && CellsInRange(cells) && CellsInRange(cells[p := x])
    requires SectionAvoids(cells, q, p)
    ensures SectionAt(cells[p := x], q) == SectionAt(cells, q)
  {
    var ch := cells[q].children;
    forall u | u in ch
      ensures SubsectionAt(cells[p := x], ch[u]) == SubsectionAt(cells, ch[u])
    {
      SubsectionFrame(cells, p, x, ch[u]);
    }
  }

  lemma ChapterFrame(cells: seq<Cell>, p: Ref, x: Cell, q: Ref)
    requires p < |cells| && q < |cells| && CellsInRange(cells) && CellsInRange(cells[p := x])
    requires ChapterAvoids(cells, q, p)
    ensures ChapterAt(cells[p := x], q) == ChapterAt(cells, q)
  {
    var ch := cells[q].children;
    forall s | s in ch
      ensures SectionAt(cells[p := x], ch[s]) == SectionAt(cells, ch[s])
    {
      SectionFrame(cells, p, x, ch[s]);
    }
  }

  /** Appending a cell changes no reading of the old ones. */
  lemma ChapterExtend(cells: seq<Cell>, x: Cell, q: Ref)
    requires q < |cells| && CellsInRange(cells) && CellsInRange(cells + [x])
    ensures ChapterAt(cells + [x], q) == ChapterAt(cells, q)
  {
    var ch := cells[q].children;
    forall s | s in ch
      ensures SectionAt(cells + [x], ch[s]) == SectionAt(cells, ch[s])
    {
      assert (cells + [x])[ch[s]] == cells[ch[s]];
    }
  }

  // ---------------------------------------------------------------------
  // Who can read a cell

  /** Cell `r` was stored nowhere, or in a cell stored nowhere: nothing read from the top-level dictionary reaches it. */
  predicate Unread(owner: seq<Owner>, r: Ref) {
    r < |owner| && (owner[r] == Unlinked || (owner[r].Child? && owner[r].parent < |owner| && owner[owner[r].parent] == Unlinked))
  }

  lemma UnreadAvoided(a: Arena, owner: seq<Owner>, p: Ref, c: string)
    requires Ok(a, owner) && Unread(owner, p) && c in a.top
    ensures ChapterAvoids(a.cells, a.top[c], p)
  {
  }

  /** No other chapter reads chapter `c0`'s cell. */
  lemma ChapterCellAvoided(a: Arena, owner: seq<Owner>, c0: string, c: string)
    requires Ok(a, owner) && c0 in a.top && c in a.top && c != c0
    ensures ChapterAvoids(a.cells, a.top[c], a.top[c0])
  {
  }

  /** Only chapter `c0`, through its section `s0`, reads that section's cell. */
  lemma SectionCellAvoided(a: Arena, owner: seq<Owner>, c0: string, s0: string, c: string)
    requires Ok(a, owner) && c0 in a.top && c in a.top && s0 in a.cells[a.top[c0]].children
    ensures var m := a.cells[a.top[c0]].children[s0];
      && (c != c0 ==> ChapterAvoids(a.cells, a.top[c], m))
      && a.top[c0] != m
      && (forall s :: s in a.cells[a.top[c0]].children && s != s0 ==> SectionAvoids(a.cells, a.cells[a.top[c0]].children[s], m))
      && (forall u :: u in a.cells[m].children ==> a.cells[m].children[u] != m)
  {
  }

  /** Only section `s0` of chapter `c0`, under key `u0`, reads that subsection's cell. */
  lemma SubsectionCellAvoided(a: Arena, owner: seq<Owner>, c0: string, s0: string, u0: string, c: string)
    requires Ok(a, owner) && c0 in a.top && c in a.top && s0 in a.cells[a.top[c0]].children
    requires u0 in a.cells[a.cells[a.top[c0]].children[s0]].children
    ensures var m := a.cells[a.top[c0]].children[s0];
      var g := a.cells[m].children[u0];
      && (c != c0 ==> ChapterAvoids(a.cells, a.top[c], g))
      && a.top[c0] != g && m != g
      && (forall s :: s in a.cells[a.top[c0]].children && s != s0 ==> SectionAvoids(a.cells, a.cells[a.top[c0]].children[s], g))
      && (forall u :: u in a.cells[m].children && u != u0 ==> a.cells[m].children[u] != g)
  {
  }

  // ---------------------------------------------------------------------
  // A write to one cell, read out

  /** Rewriting a cell that no chapter reads leaves the outline as it was. */
  lemma UnreadWrite(a: Arena, owner: seq<Owner>, p: Ref, x: Cell)
    requires Ok(a, owner) && Unread(owner, p)
    requires forall k :: k in x.children ==> x.children[k] < |a.cells|
    ensures InRange(a.(cells := a.cells[p := x]))
    ensures Resolve(a.(cells := a.cells[p := x])) == Resolve(a)
  {
    var a' := a.(cells := a.cells[p := x]);
    forall c | c in a.top
      ensures ChapterAt(a'.cells, a.top[c]) == ChapterAt(a.cells, a.top[c])
    {
      UnreadAvoided(a, owner, p, c);
      ChapterFrame(a.cells, p, x, a.top[c]);
    }
  }

  /** A chapter cell rewritten to `x` reads its sections from the cells as they are. */
  lemma ChapterAtOwnWrite(cells: seq<Cell>, p: Ref, x: Cell)
    requires p < |cells| && CellsInRange(cells) && CellsInRange(cells[p := x])
    requires forall k :: k in x.children ==> x.children[k] < |cells| && SectionAvoids(cells, x.children[k], p)
    ensures ChapterAt(cells[p := x], p) == ChapterEntry(x.title, map k | k in x.children :: SectionAt(cells, x.children[k]), x.text)
  {
    forall k | k in x.children
      ensures SectionAt(cells[p := x], x.children[k]) == SectionAt(cells, x.children[k])
    {
      SectionFrame(cells, p, x, x.children[k]);
    }
  }

  /** A section cell rewritten to `x` reads its subsections from the cells as they are. */
  lemma SectionAtOwnWrite(cells: seq<Cell>, m: Ref, x: Cell)
    requires m < |cells| && CellsInRange(cells) && CellsInRange(cells[m := x])
    requires forall k :: k in x.children ==> x.children[k] < |cells| && x.children[k] != m
    ensures SectionAt(cells[m := x], m) == SectionEntry(x.title, map k | k in x.children :: SubsectionAt(cells, x.children[k]), x.text)
  {
    forall k | k in x.children
      ensures SubsectionAt(cells[m := x], x.children[k]) == SubsectionAt(cells, x.children[k])
    {
      SubsectionFrame(cells, m, x, x.children[k]);
    }
  }

  /** A rewrite of one cell keeps every reference in range when the new cell's are. */
  lemma WriteInRange(a: Arena, p: Ref, x: Cell)
    requires InRange(a) && p < |a.cells|
    requires forall k :: k in x.children ==> x.children[k] < |a.cells|
    ensures InRange(a.(cells := a.cells[p := x]))
  {
  }

  /** A chapter cell with section `k` linked to cell `n`. */
  lemma ChapterAtLink(cells: seq<Cell>, p: Ref, k: string, n: Ref)
    requires p < |cells| && n < |cells| && CellsInRange(cells) && SectionAvoids(cells, n, p)
    requires forall j :: j in cells[p].children ==> SectionAvoids(cells, cells[p].children[j], p)
    ensures var x := cells[p].(children := cells[p].children[k := n]);
      var e := ChapterAt(cells, p);
      CellsInRange(cells[p := x]) && ChapterAt(cells[p := x], p) == e.(sections := e.sections[k := SectionAt(cells, n)])
  {
    var x := cells[p].(children := cells[p].children[k := n]);
    ChapterAtOwnWrite(cells, p, x);
    var e := ChapterAt(cells, p);
    assert (map j | j in x.children :: SectionAt(cells, x.children[j])) == e.sections[k := SectionAt(cells, n)];
  }

  /** Chapter `q` read after a cell below its section `s`, and below no other section, is rewritten. */
  lemma ChapterAtInnerWrite(cells: seq<Cell>, q: Ref, s: string, p: Ref, x: Cell)
    requires q < |cells| && p < |cells| && q != p && CellsInRange(cells) && CellsInRange(cells[p := x])
    requires s in cells[q].children
    requires forall s' :: s' in cells[q].children && s' != s ==> SectionAvoids(cells, cells[q].children[s'], p)
    ensures var e := ChapterAt(cells, q);
      ChapterAt(cells[p := x], q) == e.(sections := e.sections[s := SectionAt(cells[p := x], cells[q].children[s])])
  {
    var ch := cells[q].children;
    forall s' | s' in ch && s' != s
      ensures SectionAt(cells[p := x], ch[s']) == SectionAt(cells, ch[s'])
    {
      SectionFrame(cells, p, x, ch[s']);
    }
    assert cells[p := x][q] == cells[q];
  }

  /** Section `m` read after its subsection `u`'s cell, and no other subsection's, is rewritten. */
  lemma SectionAtInnerWrite(cells: seq<Cell>, m: Ref, u: string, x: Cell)
    requires m < |cells| && CellsInRange(cells) && u in cells[m].children
    requires CellsInRange(cells[cells[m].children[u] := x]) && m != cells[m].children[u]
    requires forall u' :: u' in cells[m].children && u' != u ==> cells[m].children[u'] != cells[m].children[u]
    ensures var g := cells[m].children[u];
      var e := SectionAt(cells, m);
      SectionAt(cells[g := x], m) == e.(subsections := e.subsections[u := SubsectionAt(cells[g := x], g)])
  {
    var g := cells[m].children[u];
    var ch := cells[m].children;
    forall u' | u' in ch && u' != u
      ensures SubsectionAt(cells[g := x], ch[u']) == SubsectionAt(cells, ch[u'])
    {
      SubsectionFrame(cells, g, x, ch[u']);
    }
    assert cells[g := x][m] == cells[m];
  }

  /** The outline read after a rewrite that changes the reading of chapter `c` only. */
  lemma ResolveOneChapter(a: Arena, cells: seq<Cell>, c: string, e: ChapterEntry)
    requires InRange(a) && InRange(a.(cells := cells)) && c in a.top
    requires forall c' :: c' in a.top && c' != c ==> ChapterAt(cells, a.top[c']) == ChapterAt(a.cells, a.top[c'])
    requires ChapterAt(cells, a.top[c]) == e
    ensures Resolve(a.(cells := cells)) == Resolve(a)[c := e]
  {
  }

  /** Rewriting chapter `c`'s cell changes that chapter only. */
  lemma ChapterWrite(a: Arena, owner: seq<Owner>, c: string, x: Cell)
    requires Ok(a, owner) && c in a.top
    requires forall k :: k in x.children ==> x.children[k] < |a.cells| && SectionAvoids(a.cells, x.children[k], a.top[c])
    ensures InRange(a.(cells := a.cells[a.top[c] := x]))
    ensures Resolve(a.(cells := a.cells[a.top[c] := x]))
         == Resolve(a)[c := ChapterAt(a.cells[a.top[c] := x], a.top[c])]
  {
    var p := a.top[c];
    WriteInRange(a, p, x);
    forall c' | c' in a.top && c' != c
      ensures ChapterAt(a.cells[p := x], a.top[c']) == ChapterAt(a.cells, a.top[c'])
    {
      ChapterCellAvoided(a, owner, c, c');
      ChapterFrame(a.cells, p, x, a.top[c']);
    }
    ResolveOneChapter(a, a.cells[p := x], c, ChapterAt(a.cells[p := x], p));
  }

  /** Rewriting the cell of section `s` of chapter `c` changes that section only. */
  lemma SectionWrite(a: Arena, owner: seq<Owner>, c: string, s: string, x: Cell)
    requires Ok(a, owner) && c in a.top && s in a.cells[a.top[c]].children
    requires forall k :: k in x.children ==> x.children[k] < |a.cells|
    ensures var m := a.cells[a.top[c]].children[s];
      && InRange(a.(cells := a.cells[m := x]))
      && Resolve(a.(cells := a.cells[m := x])) == PutSection(Resolve(a), c, s, SectionAt(a.cells[m := x], m))
  {
    var q := a.top[c];
    var m := a.cells[q].children[s];
    WriteInRange(a, m, x);
    forall c' | c' in a.top && c' != c
      ensures ChapterAt(a.cells[m := x], a.top[c']) == ChapterAt(a.cells, a.top[c'])
    {
      SectionCellAvoided(a, owner, c, s, c');
      ChapterFrame(a.cells, m, x, a.top[c']);
    }
    SectionCellAvoided(a, owner, c, s, c);
    ChapterAtInnerWrite(a.cells, q, s, m, x);
    var e := Resolve(a)[c];
    ResolveOneChapter(a, a.cells[m := x], c, e.(sections := e.sections[s := SectionAt(a.cells[m := x], m)]));
  }

  /** Rewriting the cell of subsection `u` of section `s` of chapter `c` changes that subsection only. */
  lemma SubsectionWrite(a: Arena, owner: seq<Owner>, c: string, s: string, u: string, x: Cell)
    requires Ok(a, owner) && c in a.top && s in a.cells[a.top[c]].children
    requires u in a.cells[a.cells[a.top[c]].children[s]].children
    requires forall k :: k in x.children ==> x.children[k] < |a.cells|
    ensures var g := a.cells[a.cells[a.top[c]].children[s]].children[u];
      && InRange(a.(cells := a.cells[g := x]))
      && Resolve(a.(cells := a.cells[g := x])) == PutSubsection(Resolve(a), c, s, u, SubsectionAt(a.cells[g := x], g))
  {
    var q := a.top[c];
    var m := a.cells[q].children[s];
    var g := a.cells[m].children[u];
    WriteInRange(a, g, x);
    forall c' | c' in a.top && c' != c
      ensures ChapterAt(a.cells[g := x], a.top[c']) == ChapterAt(a.cells, a.top[c'])
    {
      SubsectionCellAvoided(a, owner, c, s, u, c');
      ChapterFrame(a.cells, g, x, a.top[c']);
    }
    SubsectionCellAvoided(a, owner, c, s, u, c);
    ChapterAtInnerWrite(a.cells, q, s, g, x);
    SectionAtInnerWrite(a.cells, m, u, x);
    var e := Resolve(a)[c];
    var sec := e.sections[s];
    assert sec == SectionAt(a.cells, m);
    ResolveOneChapter(a, a.cells[g := x], c, e.(sections := e.sections[s := sec.(subsections := sec.subsections[u := SubsectionAt(a.cells[g := x], g)])]));
  }

  // ---------------------------------------------------------------------
  // The loop's writes, read out

  /** A new dictionary changes no reading; it belongs where `o` says it will be stored. */
  lemma NewCellOk(a: Arena, owner: seq<Owner>, title: string, o: Owner)
    requires Ok(a, owner)
    ensures Ok(NewCell(a, title), owner + [o])
    ensures Resolve(NewCell(a, title)) == Resolve(a)
    ensures forall r :: Unread(owner, r) ==> Unread(owner + [o], r)
  {
    var x := Cell(title, map[], "");
    forall k | k in a.top
      ensures ChapterAt(a.cells + [x], a.top[k]) == ChapterAt(a.cells, a.top[k])
    {
      ChapterExtend(a.cells, x, a.top[k]);
    }
  }

  /** `structure[k] = <cell n>` for a cell stored nowhere else. */
  lemma SetTopOk(a: Arena, owner: seq<Owner>, k: string, n: Ref)
    requires Ok(a, owner) && n < |a.cells| && owner[n] == Top(k)
    ensures Ok(SetTop(a, k, n), owner)
    ensures Resolve(SetTop(a, k, n)) == Resolve(a)[k := ChapterAt(a.cells, n)]
  {
  }

  /** The sections of a chapter cell do not read it back. */
  lemma SectionsAvoidChapter(a: Arena, owner: seq<Owner>, p: Ref, n: Ref)
    requires Ok(a, owner) && p < |a.cells| && n < |a.cells| && owner[p].Top? && owner[n].Child?
    ensures SectionAvoids(a.cells, n, p)
  {
  }

  /** `<cell p>[...][k] = <cell n>` for a cell created to be stored there. */
  lemma LinkKeepsOk(a: Arena, owner: seq<Owner>, p: Ref, k: string, n: Ref)
    requires Ok(a, owner) && p < |a.cells| && n < |a.cells| && owner[n] == Child(p, k)
    ensures Ok(Link(a, p, k, n), owner)
  {
    var a' := Link(a, p, k, n);
    forall r, j | 0 <= r < |a'.cells| && j in a'.cells[r].children
      ensures a'.cells[r].children[j] < |a'.cells| && owner[a'.cells[r].children[j]] == Child(r, j)
    {
      if r == p && j == k {
      } else {
        assert a'.cells[r].children[j] == a.cells[r].children[j];
      }
    }
  }

  /** Linking a new section cell `n` under chapter `c`. */
  lemma LinkSectionOk(a: Arena, owner: seq<Owner>, c: string, k: string, n: Ref)
    requires Ok(a, owner) && c in a.top && n < |a.cells| && owner[n] == Child(a.top[c], k)
    ensures Ok(Link(a, a.top[c], k, n), owner)
    ensures Resolve(Link(a, a.top[c], k, n)) == PutSection(Resolve(a), c, k, SectionAt(a.cells, n))
  {
    var p := a.top[c];
    var x := a.cells[p].(children := a.cells[p].children[k := n]);
    forall j | j in x.children
      ensures x.children[j] < |a.cells| && SectionAvoids(a.cells, x.children[j], p)
    {
      SectionsAvoidChapter(a, owner, p, x.children[j]);
    }
    SectionsAvoidChapter(a, owner, p, n);
    ChapterWrite(a, owner, c, x);
    ChapterAtLink(a.cells, p, k, n);
    LinkKeepsOk(a, owner, p, k, n);
  }

  lemma AppendOk(a: Arena, owner: seq<Owner>, r: Ref, t: string)
    requires Ok(a, owner) && r < |a.cells|
    ensures Ok(Append(a, r, t), owner)
  {
  }

  lemma AppendChapterOk(a: Arena, owner: seq<Owner>, c: string, t: string)
    requires Ok(a, owner) && c in a.top
    ensures Resolve(Append(a, a.top[c], t)) == Resolve(a)[c := Resolve(a)[c].(text := Resolve(a)[c].text + t)]
  {
    var p := a.top[c];
    var x := a.cells[p].(text := a.cells[p].text + t);
    forall j | j in x.children
      ensures x.children[j] < |a.cells| && SectionAvoids(a.cells, x.children[j], p)
    {
      SectionsAvoidChapter(a, owner, p, x.children[j]);
    }
    ChapterWrite(a, owner, c, x);
    ChapterAtOwnWrite(a.cells, p, x);
  }

  lemma AppendSectionOk(a: Arena, owner: seq<Owner>, c: string, s: string, t: string)
    requires Ok(a, owner) && c in a.top && s in a.cells[a.top[c]].children
    ensures var sec := Resolve(a)[c].sections[s];
      Resolve(Append(a, a.cells[a.top[c]].children[s], t)) == PutSection(Resolve(a), c, s, sec.(text := sec.text + t))
  {
    var m := a.cells[a.top[c]].children[s];
    var x := a.cells[m].(text := a.cells[m].text + t);
    SectionWrite(a, owner, c, s, x);
    SectionCellAvoided(a, owner, c, s, c);
    SectionAtOwnWrite(a.cells, m, x);
  }

  lemma AppendSubsectionOk(a: Arena, owner: seq<Owner>, c: string, s: string, u: string, t: string)
    requires Ok(a, owner) && c in a.top && s in a.cells[a.top[c]].children
    requires u in a.cells[a.cells[a.top[c]].children[s]].children
    ensures var sub := Resolve(a)[c].sections[s].subsections[u];
      Resolve(Append(a, a.cells[a.cells[a.top[c]].children[s]].children[u], t))
        == PutSubsection(Resolve(a), c, s, u, sub.(text := sub.text + t))
  {
    var g := a.cells[a.cells[a.top[c]].children[s]].children[u];
    SubsectionWrite(a, owner, c, s, u, a.cells[g].(text := a.cells[g].text + t));
  }

  lemma AppendUnreadOk(a: Arena, owner: seq<Owner>, r: Ref, t: string)
    requires Ok(a, owner) && Unread(owner, r)
    ensures Resolve(Append(a, r, t)) == Resolve(a)
  {
    UnreadWrite(a, owner, r, a.cells[r].(text := a.cells[r].text + t));
  }

  // ---------------------------------------------------------------------
  // The loop

  /**
    The arena and the cursors `current_chapter`, `current_section` and
    `current_subsection` are what the key-based state `st` describes.
  */
  predicate Refines(a: Arena, cch: Option<Ref>, cs: Option<Ref>, csub: Option<Ref>, owner: seq<Owner>, st: PagesState) {
    Ok(a, owner) && Valid(st) && Resolve(a) == st.structure && Cursors(a, cch, cs, csub, owner, st)
  }

  /** Each cursor is the cell its key names in the arena, or a cell nothing reads. */
  predicate Cursors(a: Arena, cch: Option<Ref>, cs: Option<Ref>, csub: Option<Ref>, owner: seq<Owner>, st: PagesState)
    requires InRange(a)
  {
    && (match st.chapter
        case None => cch.None?
        case Some(c) => c in a.top && cch == Some(a.top[c]))
    && (match st.section
        case Closed => cs.None?
        case Attached(k) =>
          && st.chapter.Some? && st.chapter.value in a.top && k in a.cells[a.top[st.chapter.value]].children
          && cs == Some(a.cells[a.top[st.chapter.value]].children[k])
        case Loose => cs.Some? && cs.value < |owner| && owner[cs.value] == Unlinked)
    && (match st.subsection
        case Closed => csub.None?
        case Attached(u) => cs.Some? && cs.value < |a.cells| && u in a.cells[cs.value].children && csub == Some(a.cells[cs.value].children[u])
        case Loose => csub.Some? && Unread(owner, csub.value))
  }

  /** A chapter line: a new cell stored at the top level, both lower cursors cleared (pdf_pages_reading.py:79-82). */
  lemma ChapterLineRefines(a: Arena, cch: Option<Ref>, cs: Option<Ref>, csub: Option<Ref>, owner: seq<Owner>, st: PagesState, raw: string)
    requires Refines(a, cch, cs, csub, owner, st) && IsChapterLine(Strip(raw))
    ensures var line := Strip(raw);
      var n := |a.cells|;
      Refines(SetTop(NewCell(a, line), line, n), Some(n), None, None, owner + [Top(line)], Step(st, raw))
  {
    var line := Strip(raw);
    var n := |a.cells|;
    NewCellOk(a, owner, line, Top(line));
    SetTopOk(NewCell(a, line), owner + [Top(line)], line, n);
    assert ChapterAt(NewCell(a, line).cells, n) == ChapterEntry(line, map[], "");
  }

  /** A section line with a chapter open: a new cell stored in its sections (pdf_pages_reading.py:84-88). */
  lemma SectionLineRefines(a: Arena, cch: Option<Ref>, cs: Option<Ref>, csub: Option<Ref>, owner: seq<Owner>, st: PagesState, raw: string)
    requires Refines(a, cch, cs, csub, owner, st) && !IsChapterLine(Strip(raw)) && IsSectionLine(Strip(raw))
    requires cch.Some?
    ensures var line := Strip(raw);
      var n := |a.cells|;
      Refines(Link(NewCell(a, line), cch.value, line, n), cch, Some(n), None, owner + [Child(cch.value, line)], Step(st, raw))
  {
    var line := Strip(raw);
    var n := |a.cells|;
    var c := st.chapter.value;
    var o := owner + [Child(cch.value, line)];
    var a1 := NewCell(a, line);
    NewCellOk(a, owner, line, Child(cch.value, line));
    LinkSectionOk(a1, o, c, line, n);
    assert SectionAt(a1.cells, n) == SectionEntry(line, map[], "");
    var next := PagesState(PutSection(st.structure, c, line, SectionEntry(line, map[], "")), st.chapter, Attached(line), Closed);
    assert Step(st, raw) == next;
    assert Link(a1, cch.value, line, n).cells[a.top[c]].children[line] == n;
  }

  /** A section line with no chapter open: a new cell stored nowhere (pdf_pages_reading.py:85-86, 88). */
  lemma OrphanSectionLineRefines(a: Arena, cch: Option<Ref>, cs: Option<Ref>, csub: Option<Ref>, owner: seq<Owner>, st: PagesState, raw: string)
    requires Refines(a, cch, cs, csub, owner, st) && !IsChapterLine(Strip(raw)) && IsSectionLine(Strip(raw))
    requires cch.None?
    ensures var line := Strip(raw);
      Refines(NewCell(a, line), cch, Some(|a.cells|), None, owner + [Unlinked], Step(st, raw))
  {
    NewCellOk(a, owner, Strip(raw), Unlinked);
  }

  /** Appending to a cell moves no reference: the cursors still refine when only the outline's texts changed. */
  lemma AppendRefines(a: Arena, cch: Option<Ref>, cs: Option<Ref>, csub: Option<Ref>, owner: seq<Owner>, st: PagesState, r: Ref, t: string, next: PagesState)
    requires Refines(a, cch, cs, csub, owner, st) && r < |a.cells|
    requires next == st.(structure := Resolve(Append(a, r, t))) && Valid(next)
    ensures Refines(Append(a, r, t), cch, cs, csub, owner, next)
  {
    AppendOk(a, owner, r, t);
  }

  /** A body line with an attached subsection: appended to that subsection's text (pdf_pages_reading.py:96-97). */
  lemma SubsectionBodyRefines(a: Arena, cch: Option<Ref>, cs: Option<Ref>, csub: Option<Ref>, owner: seq<Owner>, st: PagesState, raw: string)
    requires Refines(a, cch, cs, csub, owner, st) && IsBodyLine(Strip(raw)) && st.subsection.Attached?
    ensures csub.Some? && csub.value < |a.cells|
    ensures Refines(Append(a, csub.value, Strip(raw) + "\n"), cch, cs, csub, owner, Step(st, raw))
  {
    var t := Strip(raw) + "\n";
    var (c, k, u) := (st.chapter.value, st.section.key, st.subsection.key);
    AppendSubsectionOk(a, owner, c, k, u, t);
    var sub := st.structure[c].sections[k].subsections[u];
    var next := st.(structure := PutSubsection(st.structure, c, k, u, sub.(text := sub.text + t)));
    assert Step(st, raw) == AppendText(st, t) == next;
    AppendRefines(a, cch, cs, csub, owner, st, csub.value, t, next);
  }

  /** A body line with an attached section and no subsection: appended to the section's text (pdf_pages_reading.py:98-99). */
  lemma SectionBodyRefines(a: Arena, cch: Option<Ref>, cs: Option<Ref>, csub: Option<Ref>, owner: seq<Owner>, st: PagesState, raw: string)
    requires Refines(a, cch, cs, csub, owner, st) && IsBodyLine(Strip(raw)) && st.subsection.Closed? && st.section.Attached?
    ensures csub.None? && cs.Some? && cs.value < |a.cells|
    ensures Refines(Append(a, cs.value, Strip(raw) + "\n"), cch, cs, csub, owner, Step(st, raw))
  {
    var t := Strip(raw) + "\n";
    var (c, k) := (st.chapter.value, st.section.key);
    AppendSectionOk(a, owner, c, k, t);
    var sec := st.structure[c].sections[k];
    var next := st.(structure := PutSection(st.structure, c, k, sec.(text := sec.text + t)));
    assert Step(st, raw) == AppendText(st, t) == next;
    AppendRefines(a, cch, cs, csub, owner, st, cs.value, t, next);
  }

  /** A body line with only a chapter: appended to the chapter's text (pdf_pages_reading.py:100-101). */
  lemma ChapterBodyRefines(a: Arena, cch: Option<Ref>, cs: Option<Ref>, csub: Option<Ref>, owner: seq<Owner>, st: PagesState, raw: string)
    requires Refines(a, cch, cs, csub, owner, st) && IsBodyLine(Strip(raw)) && st.subsection.Closed? && st.section.Closed? && st.chapter.Some?
    ensures csub.None? && cs.None? && cch.Some? && cch.value < |a.cells|
    ensures Refines(Append(a, cch.value, Strip(raw) + "\n"), cch, cs, csub, owner, Step(st, raw))
  {
    var t := Strip(raw) + "\n";
    var c := st.chapter.value;
    AppendChapterOk(a, owner, c, t);
    var next := st.(structure := st.structure[c := st.structure[c].(text := st.structure[c].text + t)]);
    assert Step(st, raw) == AppendText(st, t) == next;
    AppendRefines(a, cch, cs, csub, owner, st, cch.value, t, next);
  }

  /** A body line whose lowest cursor is stored nowhere: appended to a cell nothing reads. */
  lemma LostBodyRefines(a: Arena, cch: Option<Ref>, cs: Option<Ref>, csub: Option<Ref>, owner: seq<Owner>, st: PagesState, raw: string, r: Ref)
    requires Refines(a, cch, cs, csub, owner, st) && IsBodyLine(Strip(raw))
    requires (st.subsection.Loose? && csub == Some(r)) || (st.subsection.Closed? && st.section.Loose? && cs == Some(r))
    ensures r < |a.cells| && Refines(Append(a, r, Strip(raw) + "\n"), cch, cs, csub, owner, Step(st, raw))
  {
    var t := Strip(raw) + "\n";
    AppendOk(a, owner, r, t);
    AppendUnreadOk(a, owner, r, t);
  }

  /** A body line with no cursor set is dropped (pdf_pages_reading.py:95-101). */
  lemma NowhereBodyRefines(a: Arena, cch: Option<Ref>, cs: Option<Ref>, csub: Option<Ref>, owner: seq<Owner>, st: PagesState, raw: string)
    requires Refines(a, cch, cs, csub, owner, st) && IsBodyLine(Strip(raw)) && cch.None? && cs.None? && csub.None?
    ensures Refines(a, cch, cs, csub, owner, Step(st, raw))
  {
    assert Step(st, raw) == AppendText(st, Strip(raw) + "\n") == st;
  }

  /**
    One line of the loop (pdf_pages_reading.py:76-101), writing through the
    cursors: the new arena and cursors refine `Step` of the old state.
  */
  method LineStore(a: Arena, cch: Option<Ref>, cs: Option<Ref>, csub: Option<Ref>, ghost owner: seq<Owner>, ghost st: PagesState, raw: string)
    returns (a': Arena, cch': Option<Ref>, cs': Option<Ref>, csub': Option<Ref>, ghost owner': seq<Owner>)
    requires Refines(a, cch, cs, csub, owner, st)
    ensures Refines(a', cch', cs', csub', owner', Step(st, raw))
  {
    a', cch', cs', csub', owner' := a, cch, cs, csub, owner;
    var line := Strip(raw);
    var n := |a.cells|;
    if IsChapterLine(line) {
      ChapterLineRefines(a, cch, cs, csub, owner, st, raw);
      a' := SetTop(NewCell(a, line), line, n);
      cch', cs', csub', owner' := Some(n), None, None, owner + [Top(line)];
    } else if IsSectionLine(line) {
      if cch.Some? {
        SectionLineRefines(a, cch, cs, csub, owner, st, raw);
        a' := Link(NewCell(a, line), cch.value, line, n);
        owner' := owner + [Child(cch.value, line)];
      } else {
        OrphanSectionLineRefines(a, cch, cs, csub, owner, st, raw);
        a' := NewCell(a, line);
        owner' := owner + [Unlinked];
      }
      cs', csub' := Some(n), None;
    } else if IsSubsectionLine(line) {
      // pdf_pages_reading.py:90-93 is never reached: the section test before it accepts every subsection line.
      SubsectionLineIsSectionLine(line);
      assert false;
    } else {
      var t := line + "\n";
      if csub.Some? {
        if st.subsection.Attached? {
          SubsectionBodyRefines(a, cch, cs, csub, owner, st, raw);
        } else {
          LostBodyRefines(a, cch, cs, csub, owner, st, raw, csub.value);
        }
        a' := Append(a, csub.value, t);
      } else if cs.Some? {
        if st.section.Attached? {
          SectionBodyRefines(a, cch, cs, csub, owner, st, raw);
        } else {
          LostBodyRefines(a, cch, cs, csub, owner, st, raw, cs.value);
        }
        a' := Append(a, cs.value, t);
      } else if cch.Some? {
        ChapterBodyRefines(a, cch, cs, csub, owner, st, raw);
        a' := Append(a, cch.value, t);
      } else {
        NowhereBodyRefines(a, cch, cs, csub, owner, st, raw);
      }
    }
  }

  /**
    `extract_structure_from_text` (pdf_pages_reading.py:65-103): the loop
    over the lines of `text` with the dictionaries held by reference; what it
    returns is the outline the key-based description gives.
  */
  method ExtractStructureFromText(text: string) returns (r: Document)
    ensures r == ExtractStructure(text)
  {
    var lines := SplitLines(text);
    var a := Arena(map[], []);
    var cch: Option<Ref>, cs: Option<Ref>, csub: Option<Ref> := None, None, None;
    ghost var owner: seq<Owner> := [];
    ghost var st := Start;
    var i := 0;
    while i < |lines|
      invariant i <= |lines|
      invariant Refines(a, cch, cs, csub, owner, st)
      invariant Scan(st, lines, i) == Scan(Start, lines, 0)
      decreases |lines| - i
    {
      a, cch, cs, csub, owner := LineStore(a, cch, cs, csub, owner, st, lines[i]);
      st := Step(st, lines[i]);
      i := i + 1;
    }
    r := Resolve(a);
  }
}
