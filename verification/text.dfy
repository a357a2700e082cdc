/** Python string operations the normalisers rely on: `str.split` with a
    one-character separator, `sep.join`, substring tests, `int(...)` on
    decimal text and the decimal rendering used by `str.format`. */
module Text {
  import opened Wrappers

  /** `needle` occurs in `hay` starting at index `i`. */
  predicate OccursAt(hay: string, needle: string, i: int) {
    0 <= i && i + |needle| <= |hay| && hay[i..i + |needle|] == needle
  }

  /** Python's `needle in hay` on strings. */
  predicate IsSubstring(needle: string, hay: string) {
    exists i | 0 <= i <= |hay| :: OccursAt(hay, needle, i)
  }

  /** `sep.join(parts)` for a one-character separator. */
  function Join(parts: seq<string>, sep: char): string
    requires |parts| >= 1
  {
    if |parts| == 1 then parts[0] else parts[0] + [sep] + Join(parts[1..], sep)
  }

  /** The index of the first `c` in `s`, `|s|` when there is none. */
  function FirstIndex(s: string, c: char): (i: nat)
    ensures i <= |s|
    decreases |s|
  {
    if |s| == 0 || s[0] == c then 0 else 1 + FirstIndex(s[1..], c)
  }

  /** `FirstIndex` finds a `c` with none before it, or runs to the end of
      a text without one. */
  lemma {:induction false} FirstIndexIsFirst(s: string, c: char)
    ensures forall k | 0 <= k < FirstIndex(s, c) :: s[k] != c
    ensures FirstIndex(s, c) < |s| ==> s[FirstIndex(s, c)] == c
    decreases |s|
  {
    if |s| > 0 && s[0] != c {
      FirstIndexIsFirst(s[1..], c);
      assert forall k | 1 <= k < |s| :: s[k] == s[1..][k - 1];
    }
  }

  /** A text free of `c`, followed by `c`, ends where the first `c` is. */
  lemma FirstIndexAfter(t: string, c: char, rest: string)
    requires c !in t
    ensures FirstIndex(t, c) == |t|
    ensures FirstIndex(t + [c] + rest, c) == |t|
  {
    var s := t + [c] + rest;
    FirstIndexIsFirst(t, c);
    FirstIndexIsFirst(s, c);
    assert s[|t|] == c;
    assert forall k | 0 <= k < |t| :: s[k] == t[k];
  }

  /** `s.split(sep)` for a one-character separator: the text before the
      first separator, then the split of what follows it. */
  function Split(s: string, sep: char): (parts: seq<string>)
    ensures |parts| >= 1
    decreases |s|
  {
    var i := FirstIndex(s, sep);
    if i == |s| then [s] else [s[..i]] + Split(s[i + 1..], sep)
  }

  /** The pieces of `s.split(sep)` hold no separator, and joining them
      gives `s` back. */
  lemma {:induction false} SplitIsDecomposition(s: string, sep: char)
    ensures forall i | 0 <= i < |Split(s, sep)| :: sep !in Split(s, sep)[i]
    ensures Join(Split(s, sep), sep) == s
    decreases |s|
  {
    var i := FirstIndex(s, sep);
    FirstIndexIsFirst(s, sep);
    if i == |s| {
      assert forall c | c in s :: c != sep;
    } else {
      var rest := Split(s[i + 1..], sep);
      SplitIsDecomposition(s[i + 1..], sep);
      var parts := [s[..i]] + rest;
      assert parts[1..] == rest;
      assert sep !in s[..i];
      assert s == s[..i] + [sep] + s[i + 1..];
    }
  }

  /** Splitting is the inverse of joining pieces that do not hold the
      separator: `s.split(sep)` is the only such decomposition of `s`. */
  lemma {:induction false} SplitOfJoin(parts: seq<string>, sep: char)
    requires |parts| >= 1
    requires forall i | 0 <= i < |parts| :: sep !in parts[i]
    ensures Split(Join(parts, sep), sep) == parts
    decreases |parts|
  {
    var s := Join(parts, sep);
    if |parts| == 1 {
      FirstIndexAfter(parts[0], sep, "");
    } else {
      var tail := Join(parts[1..], sep);
      FirstIndexAfter(parts[0], sep, tail);
      assert s[..|parts[0]|] == parts[0];
      assert s[|parts[0]| + 1..] == tail;
      SplitOfJoin(parts[1..], sep);
      assert [parts[0]] + parts[1..] == parts;
    }
  }

  /** The first piece of a join is a prefix of the joined text. */
  lemma JoinHeadIsPrefix(parts: seq<string>, sep: char)
    requires |parts| >= 1
    ensures |parts[0]| <= |Join(parts, sep)|
    ensures Join(parts, sep)[..|parts[0]|] == parts[0]
    ensures |parts| > 1 ==> |parts[0]| < |Join(parts, sep)| && Join(parts, sep)[|parts[0]|] == sep
  {
  }

  /** The last piece of a join is a suffix of the joined text. */
  lemma {:induction false} JoinLastIsSuffix(parts: seq<string>, sep: char)
    requires |parts| >= 1
    ensures |parts[|parts| - 1]| <= |Join(parts, sep)|
    ensures Join(parts, sep)[|Join(parts, sep)| - |parts[|parts| - 1]|..] == parts[|parts| - 1]
    ensures |parts| > 1 ==>
      |parts[|parts| - 1]| < |Join(parts, sep)| &&
      Join(parts, sep)[|Join(parts, sep)| - |parts[|parts| - 1]| - 1] == sep
  {
    if |parts| > 1 {
      JoinLastIsSuffix(parts[1..], sep);
      assert parts[1..][|parts[1..]| - 1] == parts[|parts| - 1];
    }
  }

  /** `s.split(sep)[0]`: the text before the first `sep` (all of `s` when
      there is none). */
  function BeforeFirst(s: string, sep: char): (r: string)
    ensures sep !in r
    ensures |r| <= |s| && s[..|r|] == r
    ensures |r| < |s| ==> s[|r|] == sep
  {
    SplitIsDecomposition(s, sep);
    JoinHeadIsPrefix(Split(s, sep), sep);
    Split(s, sep)[0]
  }

  /** `s.split(sep)[-1]`: the text after the last `sep` (all of `s` when
      there is none). */
  function AfterLast(s: string, sep: char): (r: string)
    ensures sep !in r
    ensures |r| <= |s| && s[|s| - |r|..] == r
    ensures |r| < |s| ==> s[|s| - |r| - 1] == sep
  {
    var parts := Split(s, sep);
    SplitIsDecomposition(s, sep);
    JoinLastIsSuffix(parts, sep);
    parts[|parts| - 1]
  }

  /** When `s` ends with `sep` followed by a piece free of `sep`, that
      piece is what follows the last `sep`. */
  lemma AfterLastOfSuffix(prefix: string, t: string, sep: char)
    requires |prefix| >= 1 && prefix[|prefix| - 1] == sep
    requires sep !in t
    ensures AfterLast(prefix + t, sep) == t
  {
    var s := prefix + t;
    var r := AfterLast(s, sep);
    assert s[|s| - |t| - 1] == sep;
    assert forall i | |s| - |t| <= i < |s| :: s[i] == t[i - (|s| - |t|)];
    assert |r| == |t|;
    assert r == s[|s| - |t|..] == t;
  }

  /** A text free of the separator is one piece, also in front of
      another separator. */
  lemma SplitOfFree(x: string, y: string, sep: char)
    requires sep !in x
    ensures Split(x, sep) == [x]
    ensures Split(x + [sep] + y, sep) == [x] + Split(y, sep)
  {
    var s := x + [sep] + y;
    FirstIndexAfter(x, sep, y);
    assert s[..|x|] == x;
    assert s[|x| + 1..] == y;
  }

  /** Splitting `x + sep + y` at the first separator of `x`. */
  lemma SplitAppendAt(x: string, y: string, sep: char, i: nat)
    requires i == FirstIndex(x, sep) && i < |x|
    ensures Split(x, sep) == [x[..i]] + Split(x[i + 1..], sep)
    ensures Split(x + [sep] + y, sep) == [x[..i]] + Split(x[i + 1..] + [sep] + y, sep)
  {
    var s := x + [sep] + y;
    var y' := x[i + 1..] + [sep] + y;
    FirstIndexIsFirst(x, sep);
    assert x == x[..i] + [sep] + x[i + 1..];
    assert sep !in x[..i];
    FirstIndexAfter(x[..i], sep, y');
    assert s == x[..i] + [sep] + y';
    assert s[..i] == x[..i];
    assert s[i + 1..] == y';
  }

  /** Splitting at a separator splits the two sides independently. */
  lemma {:induction false} SplitAppend(x: string, y: string, sep: char)
    ensures Split(x + [sep] + y, sep) == Split(x, sep) + Split(y, sep)
    decreases |x|
  {
    var i := FirstIndex(x, sep);
    FirstIndexIsFirst(x, sep);
    if i == |x| {
      assert sep !in x;
      SplitOfFree(x, y, sep);
    } else {
      var head, a, b := x[..i], Split(x[i + 1..], sep), Split(y, sep);
      SplitAppendAt(x, y, sep, i);
      SplitAppend(x[i + 1..], y, sep);
      assert [head] + (a + b) == ([head] + a) + b;
    }
  }

  /** A text ending in two separator-free pieces splits into the pieces of
      its head followed by those two. */
  lemma SplitOfLastTwo(head: string, a: string, c: string, sep: char)
    requires sep !in a && sep !in c
    ensures Split(head + [sep] + (a + [sep] + c), sep) == Split(head, sep) + [a, c]
  {
    SplitAppend(head, a + [sep] + c, sep);
    SplitOfFree(a, c, sep);
    SplitOfFree(c, "", sep);
  }

  /** A piece free of the separator, followed by the separator, is what
      comes before the first separator. */
  lemma BeforeFirstOfPrefix(t: string, u: string, sep: char)
    requires sep !in t
    ensures BeforeFirst(t + [sep] + u, sep) == t
  {
    FirstIndexAfter(t, sep, u);
    assert (t + [sep] + u)[..|t|] == t;
  }

  // ---------------------------------------------------------------------
  // Decimal integers

  predicate IsDigit(c: char) {
    '0' <= c <= '9'
  }

  predicate AllDigits(s: string) {
    forall i | 0 <= i < |s| :: IsDigit(s[i])
  }

  function DigitValue(c: char): nat
    requires IsDigit(c)
  {
    (c as int) - ('0' as int)
  }

  function DigitChar(d: nat): (c: char)
    requires d < 10
    ensures IsDigit(c) && DigitValue(c) == d
  {
    (('0' as int) + d) as char
  }

  /** The number a run of decimal digits denotes. */
  function DigitsValue(s: string): nat
    requires AllDigits(s)
  {
    if |s| == 0 then 0 else 10 * DigitsValue(s[..|s| - 1]) + DigitValue(s[|s| - 1])
  }

  /** Decimal rendering of a natural number, as `str(n)` and `"{}".format(n)` give it. */
  function NatText(n: nat): (r: string)
    ensures |r| >= 1 && AllDigits(r)
    ensures DigitsValue(r) == n
  {
    if n < 10 then [DigitChar(n)]
    else
      var r := NatText(n / 10) + [DigitChar(n % 10)];
      assert r[..|r| - 1] == NatText(n / 10);
      r
  }

  /** Decimal rendering of an integer, with a leading `-` when negative. */
  function IntText(n: int): (r: string)
    ensures forall i | 0 <= i < |r| :: IsDigit(r[i]) || (i == 0 && r[i] == '-')
  {
    if n < 0 then "-" + NatText(-n) else NatText(n)
  }

  /** `int(s)` on text made of an optional sign and ASCII decimal digits,
      modelled as `None` on any other text. Python's `int` also accepts
      surrounding whitespace, `_` between digits and non-ASCII decimal
      digits; only the sign-and-ASCII-digits form is modelled. */
  function ParseInt(s: string): (r: Option<int>)
    ensures r.Some? ==> |s| >= 1
  {
    if |s| >= 1 && (s[0] == '-' || s[0] == '+') then
      var digits := s[1..];
      if |digits| >= 1 && AllDigits(digits) then
        var v: int := DigitsValue(digits);
        Some(if s[0] == '-' then -v else v)
      else None
    else if |s| >= 1 && AllDigits(s) then Some(DigitsValue(s))
    else None
  }

  /** `int(str(n)) == n`: parsing undoes rendering. */
  lemma ParseIntText(n: int)
    ensures ParseInt(IntText(n)) == Some(n)
  {
    if n < 0 {
      assert IntText(n)[1..] == NatText(-n);
    }
  }

  /** Rendering is injective, so a count printed in a message can be read back. */
  lemma NatTextInjective(a: nat, b: nat)
    requires NatText(a) == NatText(b)
    ensures a == b
  {
  }
}
