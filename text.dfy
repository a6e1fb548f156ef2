/**
 * The string operations the generator's templates are built from: rendering an
 * integer in decimal (`${code}`, `String(code)`), `Array.prototype.join`, and
 * finding a text inside another one.
 */
module Text {

  predicate IsDigit(c: char) {
    '0' <= c <= '9'
  }

  function DigitChar(d: nat): char
    requires d < 10
  {
    ('0' as int + d) as char
  }

  /** The decimal numeral of `n`, as JavaScript renders a non-negative integer. */
  function NatText(n: nat): (r: string)
    ensures |r| > 0 && forall i :: 0 <= i < |r| ==> IsDigit(r[i])
    ensures |r| > 1 ==> r[0] != '0'
  {
    if n < 10 then [DigitChar(n)] else NatText(n / 10) + [DigitChar(n % 10)]
  }

  function DigitValue(c: char): nat
    requires IsDigit(c)
  {
    c as int - '0' as int
  }

  /** The value of a string of decimal digits. */
  function DigitsValue(s: string): nat
    requires forall i :: 0 <= i < |s| ==> IsDigit(s[i])
  {
    if |s| == 0 then 0 else DigitsValue(s[..|s| - 1]) * 10 + DigitValue(s[|s| - 1])
  }

  /** Reading the numeral back gives the number. */
  lemma {:induction false} NatTextRoundTrip(n: nat)
    ensures DigitsValue(NatText(n)) == n
  {
    if n >= 10 {
      var r := NatText(n);
      assert r[..|r| - 1] == NatText(n / 10);
      NatTextRoundTrip(n / 10);
    }
  }

  /** The numeral of an integer: a minus sign, then the numeral of its magnitude. */
  function IntText(i: int): (r: string)
    ensures |r| > 0
  {
    if i < 0 then "-" + NatText(-i) else NatText(i)
  }

  /** The integer a numeral written by `IntText` stands for. */
  function ParseInt(s: string): int
    requires IsNumeral(s)
  {
    if s[0] == '-' then -(DigitsValue(s[1..]) as int) else DigitsValue(s)
  }

  /** A numeral written by `IntText` is one `ParseInt` reads. */
  predicate IsNumeral(s: string) {
    |s| > 0 && forall k :: (if s[0] == '-' then 1 else 0) <= k < |s| ==> IsDigit(s[k])
  }

  lemma IntTextRoundTrip(i: int)
    ensures IsNumeral(IntText(i)) && ParseInt(IntText(i)) == i
  {
    if i < 0 {
      assert IntText(i) == "-" + NatText(-i);
      NegativeTextRoundTrip(-i);
    } else {
      assert IntText(i) == NatText(i);
      NonNegativeTextRoundTrip(i);
    }
  }

  /** The numeral of a number that is not negative: its digits alone. */
  lemma NonNegativeTextRoundTrip(n: nat)
    ensures IsNumeral(NatText(n)) && ParseInt(NatText(n)) == n
  {
    var r := NatText(n);
    assert IsDigit(r[0]);
    NatTextRoundTrip(n);
  }

  /** The numeral of a negative number: a minus sign and the digits of its magnitude. */
  lemma NegativeTextRoundTrip(n: nat)
    requires n > 0
    ensures IsNumeral("-" + NatText(n)) && ParseInt("-" + NatText(n)) == -(n as int)
  {
    var m := NatText(n);
    var r := "-" + m;
    assert r[0] == '-' && r[1..] == m;
    assert forall k :: 1 <= k < |r| ==> IsDigit(r[k]) by {
      forall k | 1 <= k < |r| ensures IsDigit(r[k]) {
        assert r[k] == m[k - 1];
      }
    }
    NatTextRoundTrip(n);
  }

  /** Distinct integers are rendered differently. */
  lemma IntTextInjective(i: int, j: int)
    requires IntText(i) == IntText(j)
    ensures i == j
  {
    IntTextRoundTrip(i);
    IntTextRoundTrip(j);
  }

  /** `xs.join(sep)`. */
  function Join(xs: seq<string>, sep: string): string
    decreases |xs|
  {
    if |xs| == 0 then "" else if |xs| == 1 then xs[0] else xs[0] + sep + Join(xs[1..], sep)
  }

  /** `f` applied to every element, as `xs.map(f)` does. */
  function Map(xs: seq<string>, f: string -> string): (r: seq<string>)
    ensures |r| == |xs| && forall i :: 0 <= i < |xs| ==> r[i] == f(xs[i])
  {
    seq(|xs|, i requires 0 <= i < |xs| => f(xs[i]))
  }

  /** `s` holds neither a `$` nor a `!`. */
  predicate Plain(s: string) {
    forall i :: 0 <= i < |s| ==> s[i] != '$' && s[i] != '!'
  }

  lemma PlainConcat(a: string, b: string)
    requires Plain(a) && Plain(b)
    ensures Plain(a + b)
  {
    forall i | 0 <= i < |a + b|
      ensures (a + b)[i] != '$' && (a + b)[i] != '!'
    {
      if i < |a| {
        assert (a + b)[i] == a[i];
      } else {
        assert (a + b)[i] == b[i - |a|];
      }
    }
  }

  /** Plain parts joined by a plain separator make plain text. */
  lemma {:induction false} JoinPlain(xs: seq<string>, sep: string)
    requires Plain(sep) && forall i :: 0 <= i < |xs| ==> Plain(xs[i])
    ensures Plain(Join(xs, sep))
    decreases |xs|
  {
    if |xs| > 1 {
      JoinPlain(xs[1..], sep);
      PlainConcat(xs[0], sep);
      PlainConcat(xs[0] + sep, Join(xs[1..], sep));
    }
  }

  /** A numeral is plain. */
  lemma IntTextPlain(i: int)
    ensures Plain(IntText(i))
  {
    if i < 0 {
      assert Plain("-") && Plain(NatText(-i));
      PlainConcat("-", NatText(-i));
    }
  }

  /** A plain text holds no occurrence of a text that has a `$` or a `!`. */
  lemma PlainAvoids(s: string, w: string, j: int)
    requires Plain(s) && 0 <= j < |w| && (w[j] == '$' || w[j] == '!')
    ensures forall k :: !OccursAt(s, w, k)
  {
    forall k
      ensures !OccursAt(s, w, k)
    {
      if 0 <= k && k + |w| <= |s| {
        assert s[k..k + |w|][j] == s[k + j];
      }
    }
  }

  /** `w` occurs in `s` starting at index `i`. */
  predicate OccursAt(s: string, w: string, i: int) {
    0 <= i && i + |w| <= |s| && s[i..i + |w|] == w
  }

  /** `w` occurs in `s` at or after index `from`. */
  predicate OccursFrom(s: string, w: string, from: nat) {
    exists i :: from <= i <= |s| && OccursAt(s, w, i)
  }

  /**
   * The first index at or after `from` where `w` occurs in `s`, if there is one;
   * `s.indexOf(w, from)`. `IndexOfFirst` states what the result means. For an empty
   * `w` and `from` past the end, JavaScript clamps `from` and answers `|s|`; the
   * search here answers -1 (the markers it looks for are never empty).
   */
  function IndexOf(s: string, w: string, from: nat): (r: int)
    ensures r == -1 || (from <= r && r + |w| <= |s|)
    decreases |s| - from
  {
    if from + |w| > |s| then -1
    else if s[from..from + |w|] == w then from
    else IndexOf(s, w, from + 1)
  }

  /** `indexOf` finds `w` exactly when it occurs at or after `from`, and then finds its first occurrence. */
  lemma {:induction false} IndexOfFirst(s: string, w: string, from: nat)
    ensures var r := IndexOf(s, w, from);
      && (r == -1 <==> !OccursFrom(s, w, from))
      && (r != -1 ==> OccursAt(s, w, r) && forall i :: from <= i < r ==> !OccursAt(s, w, i))
    decreases |s| - from
  {
    if from + |w| > |s| {
      assert forall i :: from <= i ==> !OccursAt(s, w, i);
    } else if s[from..from + |w|] == w {
      assert OccursAt(s, w, from);
    } else {
      IndexOfFirst(s, w, from + 1);
      assert !OccursAt(s, w, from);
      if OccursFrom(s, w, from) {
        var i :| from <= i <= |s| && OccursAt(s, w, i);
        assert OccursFrom(s, w, from + 1);
      }
    }
  }

  /** The first occurrence of `w` at or after `from` is one with none before it. */
  lemma IndexOfIs(s: string, w: string, from: nat, p: int)
    requires from <= p && OccursAt(s, w, p)
    requires forall i :: from <= i < p ==> !OccursAt(s, w, i)
    ensures IndexOf(s, w, from) == p
  {
    IndexOfFirst(s, w, from);
    assert OccursFrom(s, w, from);
  }

  /** An occurrence that ends within `p` is one in `p + q`, and the other way round. */
  lemma OccursInPrefix(p: string, q: string, w: string, k: int)
    requires 0 <= k && k + |w| <= |p|
    ensures OccursAt(p + q, w, k) <==> OccursAt(p, w, k)
  {
    assert (p + q)[k..k + |w|] == p[k..k + |w|];
  }

  /** An occurrence in `b` is one in `a + b`, shifted by `|a|`, and the other way round. */
  lemma OccursShifted(a: string, b: string, w: string, k: int)
    requires 0 <= k
    ensures OccursAt(a + b, w, |a| + k) <==> OccursAt(b, w, k)
  {
    if k + |w| <= |b| {
      assert (a + b)[|a| + k..|a| + k + |w|] == b[k..k + |w|];
    }
  }

  /** A concatenation of five parts, with its last three grouped. */
  lemma RegroupTail(a: string, b: string, c: string, d: string, e: string)
    ensures a + b + c + d + e == a + b + (c + d + e)
  {
  }

  /** A concatenation of five parts, with its middle three grouped. */
  lemma RegroupMiddle(a: string, b: string, c: string, d: string, e: string)
    ensures a + b + c + d + e == a + (b + c + d) + e
  {
  }

  /** The parts of a concatenation of five parts, sliced back out of it. */
  lemma SliceParts(a: string, b: string, c: string, d: string, e: string)
    ensures var s := a + b + c + d + e;
      && s[..|a|] == a && s[|a| + |b|..|a| + |b| + |c|] == c
      && s[|a|..|a| + |b| + |c| + |d|] == b + c + d && s[|a| + |b| + |c| + |d|..] == e
  {
  }

  /** A string is the concatenation of its slices at four cut points. */
  lemma CutFour(s: string, p1: int, p2: int, p3: int, p4: int)
    requires 0 <= p1 <= p2 <= p3 <= p4 <= |s|
    ensures s == s[..p1] + s[p1..p2] + s[p2..p3] + s[p3..p4] + s[p4..]
  {
  }

  /** Replacing the second and fourth of four parts by equal strings gives an equal string. */
  lemma ReplaceSecondAndFourth(a: string, b: string, c: string, d: string, b': string, d': string)
    requires b == b' && d == d'
    ensures a + b + c + d == a + b' + c + d'
  {
  }

  /** An occurrence of `w` at `i` starts with the first character of `w`. */
  lemma OccursHead(s: string, w: string, i: int)
    requires OccursAt(s, w, i) && |w| > 0
    ensures s[i] == w[0]
  {
    assert s[i..i + |w|][0] == s[i];
  }

  /** `w` occurs in `p + w + q` right after `p`. */
  lemma OccursBetween(p: string, w: string, q: string)
    ensures OccursAt(p + w + q, w, |p|)
  {
    assert (p + w + q)[|p|..|p| + |w|] == w;
  }

  /**
   * Where the status stands in a text of the shape of a JSDoc comment: after the
   * opening, and again just before the closing.
   */
  lemma TemplateStatus(open: string, status: string, middle: string, close: string)
    ensures var r := open + status + middle + status + close;
      OccursAt(r, status, |open|) && OccursAt(r, status, |r| - |close| - |status|)
  {
    OccursBetween(open, status, middle + status + close);
    assert open + status + middle + status + close == open + status + (middle + status + close);
    OccursBetween(open + status + middle, status, close);
  }

  /** Where the condition word `t` stands in a text of the shape of a JSDoc comment. */
  lemma TemplateWord(open: string, status: string, afterStatus: string, t: string, afterWord: string,
                     afterSecond: string, close: string)
    ensures var r := open + status + (afterStatus + t + afterWord + t + afterSecond) + status + close;
      var i := |open| + |status| + |afterStatus|;
      OccursAt(r, t, i) && OccursAt(r, t, i + |t| + |afterWord|)
  {
    var r := open + status + (afterStatus + t + afterWord + t + afterSecond) + status + close;
    assert r == (open + status + afterStatus) + t + (afterWord + t + afterSecond + status + close);
    OccursBetween(open + status + afterStatus, t, afterWord + t + afterSecond + status + close);
    assert r == (open + status + afterStatus + t + afterWord) + t + (afterSecond + status + close);
    OccursBetween(open + status + afterStatus + t + afterWord, t, afterSecond + status + close);
  }

  /** The strings `f` gives for the elements of `xs`, one after the other: `xs.map(f).join("")`. */
  function ConcatMap<T>(xs: seq<T>, f: T -> string): string
    decreases |xs|
  {
    if |xs| == 0 then "" else f(xs[0]) + ConcatMap(xs[1..], f)
  }

  lemma ConcatMapOne<T>(x: T, f: T -> string)
    ensures ConcatMap([x], f) == f(x)
  {
    assert [x][1..] == [];
  }

  lemma {:induction false} ConcatMapAppend<T>(a: seq<T>, b: seq<T>, f: T -> string)
    ensures ConcatMap(a + b, f) == ConcatMap(a, f) + ConcatMap(b, f)
    decreases |a|
  {
    if |a| == 0 {
      assert a + b == b;
    } else {
      assert (a + b)[1..] == a[1..] + b;
      ConcatMapAppend(a[1..], b, f);
    }
  }
}
