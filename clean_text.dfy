/** `clean_text` of Script.py: `re.sub(r'\s+', ' ', text).strip()`. */
module CleanText {
  import opened Chars
  import opened Text

  /** `re.sub(r'\s+', ' ', s)`: each maximal run of whitespace becomes a single space. */
  function CollapseSpace(s: string): string
    decreases |s|
  {
    if s == [] then []
    else if IsSpace(s[0]) then " " + CollapseSpace(s[Run(s, 0, Space)..])
    else [s[0]] + CollapseSpace(s[1..])
  }

  /** The only whitespace is `' '`, and no two spaces are adjacent. */
  predicate Collapsed(s: string) {
    && (forall j :: 0 <= j < |s| && IsSpace(s[j]) ==> s[j] == ' ')
    && (forall j :: 0 <= j < |s| - 1 && s[j] == ' ' ==> s[j + 1] != ' ')
  }

  /** What `clean_text` promises: collapsed, and no whitespace at either end. */
  predicate Normalized(s: string) {
    Collapsed(s) && NoOuterSpace(s)
  }

  /** The non-whitespace characters of `s`, in order. */
  function Visible(s: string): string
  {
    if s == [] then [] else (if IsSpace(s[0]) then [] else [s[0]]) + Visible(s[1..])
  }

  lemma {:induction false} VisibleConcat(a: string, b: string)
    ensures Visible(a + b) == Visible(a) + Visible(b)
  {
    if a == [] {
      assert a + b == b;
    } else {
      assert (a + b)[1..] == a[1..] + b;
      VisibleConcat(a[1..], b);
    }
  }

  lemma {:induction false} VisibleOfSpace(s: string)
    requires AllSpace(s)
    ensures Visible(s) == []
  {
    if s != [] {
      VisibleOfSpace(s[1..]);
    }
  }

  /** A collapsed string starts with the character the input starts with, when that is not whitespace. */
  lemma CollapseHead(s: string)
    requires s != [] && !IsSpace(s[0])
    ensures CollapseSpace(s) != [] && CollapseSpace(s)[0] == s[0]
  {}

  lemma {:induction false} CollapseIsCollapsed(s: string)
    ensures Collapsed(CollapseSpace(s))
    decreases |s|
  {
    if s == [] {
    } else if IsSpace(s[0]) {
      var rest := s[Run(s, 0, Space)..];
      CollapseIsCollapsed(rest);
      if rest != [] {
        CollapseHead(rest);
      }
    } else {
      CollapseIsCollapsed(s[1..]);
    }
  }

  lemma {:induction false} CollapseKeepsVisible(s: string)
    ensures Visible(CollapseSpace(s)) == Visible(s)
    decreases |s|
  {
    if s == [] {
    } else if IsSpace(s[0]) {
      var n := Run(s, 0, Space);
      CollapseKeepsVisible(s[n..]);
      assert s == s[..n] + s[n..];
      VisibleConcat(s[..n], s[n..]);
      VisibleOfSpace(s[..n]);
      VisibleConcat(" ", CollapseSpace(s[n..]));
    } else {
      CollapseKeepsVisible(s[1..]);
      VisibleConcat([s[0]], CollapseSpace(s[1..]));
    }
  }

  /** Collapsing leaves an already collapsed string alone. */
  lemma {:induction false} CollapseFixesCollapsed(s: string)
    requires Collapsed(s)
    ensures CollapseSpace(s) == s
    decreases |s|
  {
    if s != [] {
      assert Collapsed(s[1..]);
      if IsSpace(s[0]) {
        RunUnique(s, 0, Space, 1);
      }
      CollapseFixesCollapsed(s[1..]);
    }
  }

  lemma SliceOfCollapsed(s: string, lo: nat, hi: nat)
    requires lo <= hi <= |s| && Collapsed(s)
    ensures Collapsed(s[lo..hi])
  {
    assert forall j :: 0 <= j < hi - lo ==> s[lo..hi][j] == s[lo + j];
  }

  /**
    Script.py:9-11.  The result has no whitespace other than single spaces and
    none at its ends, and keeps every other character of the input, in order.
  */
  function Clean(text: string): string
  {
    Strip(CollapseSpace(text))
  }

  /** The cleaned line has no whitespace other than single spaces, and none at its ends. */
  lemma CleanIsNormalized(text: string)
    ensures Normalized(Clean(text))
  {
    var c := CollapseSpace(text);
    CollapseIsCollapsed(text);
    StripHasNoOuterSpace(c);
    StripParts(c);
    var lo := Run(c, 0, Space);
    SliceOfCollapsed(c, lo, lo + |Strip(c)|);
    assert Strip(c) == c[lo..lo + |Strip(c)|];
  }

  /** Stripping removes only whitespace. */
  lemma StripKeepsVisible(c: string)
    ensures Visible(Strip(c)) == Visible(c)
  {
    StripParts(c);
    var lo := Run(c, 0, Space);
    var m := Strip(c);
    var a, b := c[..lo], c[lo + |m|..];
    assert c == a + m + b && AllSpace(a) && AllSpace(b);
    VisibleConcat(a + m, b);
    VisibleConcat(a, m);
    VisibleOfSpace(a);
    VisibleOfSpace(b);
  }

  /** Cleaning removes only whitespace: every other character survives, in order. */
  lemma CleanKeepsVisible(text: string)
    ensures Visible(Clean(text)) == Visible(text)
  {
    CollapseKeepsVisible(text);
    StripKeepsVisible(CollapseSpace(text));
  }

  /** Cleaning a normalized line changes nothing. */
  lemma CleanFixesNormalized(s: string)
    requires Normalized(s)
    ensures Clean(s) == s
  {
    CollapseFixesCollapsed(s);
    StripFixesStripped(s);
  }

  /** `clean_text` is idempotent. */
  lemma CleanIdempotent(s: string)
    ensures Clean(Clean(s)) == Clean(s)
  {
    CleanIsNormalized(s);
    CleanFixesNormalized(Clean(s));
  }

  /** A line cleans to the empty string exactly when it is all whitespace (the `if not line` test). */
  lemma {:induction false} CleanEmpty(s: string)
    ensures Clean(s) == [] <==> AllSpace(s)
  {
    CleanKeepsVisible(s);
    CleanIsNormalized(s);
    if AllSpace(s) {
      VisibleOfSpace(s);
      VisibleEmptyHasNoVisible(Clean(s));
    } else {
      var j :| 0 <= j < |s| && !IsSpace(s[j]);
      VisibleHasNonSpace(s, j);
    }
  }

  lemma {:induction false} VisibleEmptyHasNoVisible(s: string)
    requires Normalized(s) && Visible(s) == []
    ensures s == []
  {
  }

  lemma {:induction false} VisibleHasNonSpace(s: string, j: nat)
    requires j < |s| && !IsSpace(s[j])
    ensures Visible(s) != []
  {
    if j > 0 && IsSpace(s[0]) {
      VisibleHasNonSpace(s[1..], j - 1);
    }
  }
}
