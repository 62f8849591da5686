/** Dotted heading numbers `\d+(\.\d+)*`, matched greedily from the start of a line. */
module Numbering {
  import opened Wrappers
  import opened Chars

  /** `group(1)` and `group(2)` of a heading match: the number and the text after it. */
  datatype Heading = Heading(number: string, rest: string)

  /**
    `n` is exactly a number with `dots` dots: "12" (0), "1.2" (1), "1.2.3" (2).
    Read from the right: a final digit, preceded by a shorter number with as
    many dots, by a dot and a number with one dot fewer, or by nothing.
  */
  predicate IsDottedNumber(n: string, dots: nat)
    decreases |n|
  {
    && |n| > 0
    && IsDigit(n[|n| - 1])
    && if |n| == 1 then dots == 0
       else if IsDigit(n[|n| - 2]) then IsDottedNumber(n[..|n| - 1], dots)
       else && n[|n| - 2] == '.'
            && dots > 0
            && |n| >= 3
            && IsDottedNumber(n[..|n| - 2], dots - 1)
  }

  /**
    The greedy match of `\d+(\.\d+){left}` continued from `j`, just after a
    digit: the end of the match.  Backtracking into a digit run can never
    help, since a shortened run is followed by a digit and not by the dot the
    pattern needs next.
  */
  function MatchFrom(s: string, j: nat, left: nat): (e: Option<nat>)
    requires 0 < j <= |s| && IsDigit(s[j - 1])
    ensures e.Some? ==> j <= e.value <= |s| && IsDigit(s[e.value - 1])
    ensures e.Some? ==> e.value == |s| || !IsDigit(s[e.value])
    decreases |s| - j
  {
    if j < |s| && IsDigit(s[j]) then MatchFrom(s, j + 1, left)
    else if left == 0 then Some(j)
    else if j + 1 < |s| && s[j] == '.' && IsDigit(s[j + 1]) then MatchFrom(s, j + 2, left - 1)
    else None
  }

  /** What `MatchFrom` consumes continues a number by `left` more dots. */
  lemma {:induction false} MatchFromIsNumber(s: string, j: nat, done: nat, left: nat, e: nat)
    requires 0 < j <= |s| && IsDigit(s[j - 1]) && IsDottedNumber(s[..j], done)
    requires MatchFrom(s, j, left) == Some(e)
    ensures IsDottedNumber(s[..e], done + left)
    decreases |s| - j
  {
    if j < |s| && IsDigit(s[j]) {
      assert s[..j + 1] == s[..j] + [s[j]];
      DigitExtends(s[..j], s[j], done);
      MatchFromIsNumber(s, j + 1, done, left, e);
    } else if left != 0 {
      assert s[..j + 2] == s[..j] + ['.', s[j + 1]];
      DotExtends(s[..j], s[j + 1], done);
      MatchFromIsNumber(s, j + 2, done + 1, left - 1, e);
    }
  }

  /** One more digit keeps a number a number. */
  lemma DigitExtends(n: string, c: char, dots: nat)
    requires IsDottedNumber(n, dots) && IsDigit(c)
    ensures IsDottedNumber(n + [c], dots)
  {
    var m := n + [c];
    assert m[..|m| - 1] == n;
  }

  /** So does a dot followed by a digit, with one dot more. */
  lemma DotExtends(n: string, c: char, dots: nat)
    requires IsDottedNumber(n, dots) && IsDigit(c)
    ensures IsDottedNumber(n + ['.', c], dots + 1)
  {
    var m := n + ['.', c];
    assert m[..|m| - 2] == n;
  }

  /** `^\d+(\.\d+){dots}`, greedy: where the match ends, if the line starts with such a number. */
  function NumberPrefixEnd(s: string, dots: nat): (e: Option<nat>)
    ensures e.Some? ==> 0 < e.value <= |s| && IsDigit(s[e.value - 1])
    ensures e.Some? ==> e.value == |s| || !IsDigit(s[e.value])
  {
    if 0 < |s| && IsDigit(s[0]) then MatchFrom(s, 1, dots) else None
  }

  /** What `NumberPrefixEnd` matches is a number with `dots` dots. */
  lemma NumberPrefixIsNumber(s: string, dots: nat)
    ensures NumberPrefixEnd(s, dots).Some? ==> IsDottedNumber(s[..NumberPrefixEnd(s, dots).value], dots)
  {
    if 0 < |s| && IsDigit(s[0]) {
      if MatchFrom(s, 1, dots).Some? {
        MatchFromIsNumber(s, 1, 0, dots, MatchFrom(s, 1, dots).value);
      }
    }
  }

  /** A run of digits is a number without dots. */
  lemma {:induction false} DigitsAreNumber(s: string, i: nat, e: nat)
    requires i < e <= |s| && forall j :: i <= j < e ==> IsDigit(s[j])
    ensures IsDottedNumber(s[i..e], 0)
    decreases e - i
  {
    if e - i > 1 {
      DigitsAreNumber(s, i, e - 1);
      assert s[i..e][..e - i - 1] == s[i..e - 1];
    }
  }

  /** A number never starts or ends with a dot. */
  lemma {:induction false} NumberEndsInDigits(n: string, dots: nat)
    requires IsDottedNumber(n, dots)
    ensures IsDigit(n[0]) && IsDigit(n[|n| - 1])
    decreases |n|
  {
    if |n| > 1 {
      if IsDigit(n[|n| - 2]) {
        NumberEndsInDigits(n[..|n| - 1], dots);
      } else {
        NumberEndsInDigits(n[..|n| - 2], dots - 1);
      }
    }
  }

  /** Where a number has one dot more, the number with one dot fewer ends at a dot, so it ends no match that needs a space next. */
  lemma {:induction false} MatchFromFewerDots(s: string, j: nat, left: nat)
    requires 0 < j <= |s| && IsDigit(s[j - 1])
    requires MatchFrom(s, j, left + 1).Some?
    ensures MatchFrom(s, j, left).Some?
    ensures MatchFrom(s, j, left).value < |s| && s[MatchFrom(s, j, left).value] == '.'
    decreases |s| - j
  {
    if j < |s| && IsDigit(s[j]) {
      MatchFromFewerDots(s, j + 1, left);
    } else if left > 0 {
      MatchFromFewerDots(s, j + 2, left - 1);
    }
  }

  lemma NumberPrefixFewerDots(s: string, dots: nat)
    requires NumberPrefixEnd(s, dots + 1).Some?
    ensures NumberPrefixEnd(s, dots).Some?
    ensures NumberPrefixEnd(s, dots).value < |s| && s[NumberPrefixEnd(s, dots).value] == '.'
  {
    MatchFromFewerDots(s, 1, dots);
  }
}
