/**
  String helpers shared by the parsers: the greedy runs a regular expression
  consumes, Python's `str.strip()` and `str.split('\n')`.
*/
module Text {
  import opened Chars

  /** The character classes a run can be made of: `\s`, `\d`, and `.` (anything but a newline). */
  datatype CharClass = Space | Digit | NotNewline

  predicate In(k: CharClass, c: char) {
    match k
    case Space => IsSpace(c)
    case Digit => IsDigit(c)
    case NotNewline => c != '\n'
  }

  /** The length of the longest run of class `k` from index `i`: what a greedy `\s*`, `\d+` or `.*` consumes there. */
  function Run(s: string, i: nat, k: CharClass): (n: nat)
    requires i <= |s|
    ensures i + n <= |s|
    ensures forall j :: i <= j < i + n ==> In(k, s[j])
    ensures i + n == |s| || !In(k, s[i + n])
    decreases |s| - i
  {
    if i < |s| && In(k, s[i]) then 1 + Run(s, i + 1, k) else 0
  }

  /** A run is determined by its two defining facts. */
  lemma RunUnique(s: string, i: nat, k: CharClass, n: nat)
    requires i + n <= |s|
    requires forall j :: i <= j < i + n ==> In(k, s[j])
    requires i + n == |s| || !In(k, s[i + n])
    ensures n == Run(s, i, k)
  {
  }

  /** Cutting the string at `e` cuts the run there and changes nothing before. */
  lemma RunOfPrefix(s: string, i: nat, k: CharClass, e: nat)
    requires i <= e <= |s|
    ensures Run(s[..e], i, k) == if i + Run(s, i, k) <= e then Run(s, i, k) else e - i
  {
    var m := Run(s, i, k);
    var n := if i + m <= e then m else e - i;
    assert forall j :: i <= j < i + n ==> s[..e][j] == s[j];
    RunUnique(s[..e], i, k, n);
  }

  predicate AllSpace(s: string) {
    forall j :: 0 <= j < |s| ==> IsSpace(s[j])
  }

  /** No whitespace at either end: what `str.strip()` leaves. */
  predicate NoOuterSpace(s: string) {
    |s| == 0 || (!IsSpace(s[0]) && !IsSpace(s[|s| - 1]))
  }

  /** The index after the last non-whitespace character among `s[..e]`. */
  function TrimEnd(s: string, e: nat): (t: nat)
    requires e <= |s|
    ensures t <= e
    ensures forall j :: t <= j < e ==> IsSpace(s[j])
    ensures t == 0 || !IsSpace(s[t - 1])
  {
    if e > 0 && IsSpace(s[e - 1]) then TrimEnd(s, e - 1) else e
  }

  /** Python's `str.strip()`: `s` without its leading and trailing whitespace. */
  function Strip(s: string): (r: string)
    ensures |r| <= |s|
  {
    var lo := Run(s, 0, Space);
    if lo == |s| then [] else s[lo..TrimEnd(s, |s|)]
  }

  /** `Strip` leaves no whitespace at either end. */
  lemma StripHasNoOuterSpace(s: string)
    ensures NoOuterSpace(Strip(s))
  {
    var lo := Run(s, 0, Space);
    if lo < |s| {
      var hi := TrimEnd(s, |s|);
      assert !IsSpace(s[lo]);
      assert Strip(s)[0] == s[lo] && Strip(s)[|Strip(s)| - 1] == s[hi - 1];
    }
  }

  /** A string without whitespace at its ends is its own `Strip`. */
  lemma StripFixesStripped(s: string)
    requires NoOuterSpace(s)
    ensures Strip(s) == s
  {
    if |s| > 0 {
      RunUnique(s, 0, Space, 0);
      assert s[0..|s|] == s;
    }
  }

  /** Stripping twice is stripping once. */
  lemma StripIdempotent(s: string)
    ensures Strip(Strip(s)) == Strip(s)
  {
    StripHasNoOuterSpace(s);
    StripFixesStripped(Strip(s));
  }

  /** `Strip(s)` is the slice of `s` from its first non-whitespace character on. */
  lemma StripIsSlice(s: string)
    ensures var lo := Run(s, 0, Space);
      lo + |Strip(s)| <= |s| && Strip(s) == s[lo..lo + |Strip(s)|]
  {}

  /** A slice of whitespace characters is all whitespace. */
  lemma SpaceSlice(s: string, a: nat, b: nat)
    requires a <= b <= |s| && forall j :: a <= j < b ==> IsSpace(s[j])
    ensures AllSpace(s[a..b])
  {
    assert forall j :: 0 <= j < b - a ==> s[a..b][j] == s[a + j];
  }

  lemma ThreeSlices(s: string, a: nat, b: nat)
    requires a <= b <= |s|
    ensures s == s[..a] + s[a..b] + s[b..]
  {}

  /** `Strip(s)` is `s` with an all-whitespace prefix and suffix cut off. */
  lemma StripParts(s: string)
    ensures var lo := Run(s, 0, Space);
      && lo + |Strip(s)| <= |s|
      && s == s[..lo] + Strip(s) + s[lo + |Strip(s)|..]
      && AllSpace(s[..lo]) && AllSpace(s[lo + |Strip(s)|..])
  {
    StripIsSlice(s);
    var lo := Run(s, 0, Space);
    var hi := lo + |Strip(s)|;
    ThreeSlices(s, lo, hi);
    SpaceSlice(s, 0, lo);
    assert s[..lo] == s[0..lo];
    if lo < |s| {
      assert hi == TrimEnd(s, |s|);
    }
    SpaceSlice(s, hi, |s|);
    assert s[hi..] == s[hi..|s|];
  }

  /** Whitespace at the ends is all `Strip` removes: a string with a non-space inside keeps it. */
  lemma {:induction false} StripEmpty(s: string)
    ensures Strip(s) == [] <==> AllSpace(s)
  {
    var lo := Run(s, 0, Space);
    if lo < |s| {
      assert !IsSpace(s[lo]);
    }
  }

  /** `p` holds no newline character. */
  predicate NoNewline(p: string) {
    forall j :: 0 <= j < |p| ==> p[j] != '\n'
  }

  /** Python's `str.split('\n')`: the pieces between newlines, always at least one. */
  function SplitLines(s: string): (r: seq<string>)
    ensures |r| >= 1
    decreases |s|
  {
    var n := Run(s, 0, NotNewline);
    if n == |s| then [s] else [s[..n]] + SplitLines(s[n + 1..])
  }

  /** No piece holds a newline. */
  lemma {:induction false} SplitLinesHaveNoNewline(s: string)
    ensures forall k :: 0 <= k < |SplitLines(s)| ==> NoNewline(SplitLines(s)[k])
    decreases |s|
  {
    var n := Run(s, 0, NotNewline);
    if n < |s| {
      var tail := SplitLines(s[n + 1..]);
      SplitLinesHaveNoNewline(s[n + 1..]);
      var h := s[..n];
      assert NoNewline(h) by {
        assert forall j :: 0 <= j < n ==> h[j] == s[j];
      }
      assert SplitLines(s) == [h] + tail;
    }
  }

  /** `'\n'.join(lines)` */
  function JoinLines(lines: seq<string>): string
    requires |lines| >= 1
  {
    if |lines| == 1 then lines[0] else lines[0] + "\n" + JoinLines(lines[1..])
  }

  /** A line broken at a newline is the part before it, the newline and the part after it. */
  lemma BreakAtNewline(s: string, n: nat)
    requires n < |s| && s[n] == '\n'
    ensures s == s[..n] + "\n" + s[n + 1..]
  {
    assert s == s[..n] + [s[n]] + s[n + 1..];
  }

  /** Splitting loses nothing: joining the pieces with newlines gives the text back. */
  lemma {:induction false} JoinSplitLines(s: string)
    ensures JoinLines(SplitLines(s)) == s
    decreases |s|
  {
    var n := Run(s, 0, NotNewline);
    if n < |s| {
      JoinSplitLines(s[n + 1..]);
      BreakAtNewline(s, n);
    }
  }

  /** And conversely: newline-free pieces are recovered from their join. */
  lemma {:induction false} SplitJoinLines(lines: seq<string>)
    requires |lines| >= 1
    requires forall k :: 0 <= k < |lines| ==> NoNewline(lines[k])
    ensures SplitLines(JoinLines(lines)) == lines
  {
    var s := JoinLines(lines);
    var h := lines[0];
    assert forall j :: 0 <= j < |h| ==> s[j] == h[j];
    RunUnique(s, 0, NotNewline, |h|);
    if |lines| > 1 {
      assert s[|h|] == '\n';
      assert s[..|h|] == h;
      assert s[|h| + 1..] == JoinLines(lines[1..]);
      SplitJoinLines(lines[1..]);
    }
  }
}
