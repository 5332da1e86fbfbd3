/** Sequence and string operations the components borrow from JavaScript:
    `Array.prototype.includes`, `String.prototype.includes`, `filter`,
    `split('\n')` and decimal formatting of a number. */
module SeqUtil {

  /** No value occurs twice. */
  ghost predicate NoDups<T>(s: seq<T>) {
    forall i, j :: 0 <= i < j < |s| ==> s[i] != s[j]
  }

  /** In a sequence without duplicates different indices hold different
      elements, whichever index comes first. */
  lemma NoDupsDistinct<T>(s: seq<T>, i: nat, j: nat)
    requires NoDups(s) && i < |s| && j < |s| && i != j
    ensures s[i] != s[j]
  {
    if i > j {
      assert s[j] != s[i];
    }
  }

  /** `a` can be obtained from `b` by deleting elements, so the elements
      `a` keeps appear in `b`'s order. */
  ghost predicate IsSubseq<T>(a: seq<T>, b: seq<T>)
    decreases |b|
  {
    if b == [] then a == []
    else (a != [] && a[0] == b[0] && IsSubseq(a[1..], b[1..])) || IsSubseq(a, b[1..])
  }

  /** `text.includes(sub)` on strings: `sub` occurs as a contiguous run. */
  predicate IsSubstring(text: string, sub: string) {
    exists i :: 0 <= i <= |text| - |sub| && OccursAt(text, sub, i)
  }

  /** `sub` occurs in `text` starting at index `i`. */
  predicate OccursAt(text: string, sub: string, i: int) {
    0 <= i <= |text| - |sub| && text[i..i + |sub|] == sub
  }

  /** Every character of an occurrence of `sub` occurs in `text`. */
  lemma SubstringCharsOccur(text: string, sub: string, k: nat)
    requires IsSubstring(text, sub) && k < |sub|
    ensures sub[k] in text
  {
    var i :| 0 <= i <= |text| - |sub| && OccursAt(text, sub, i);
    assert text[i..i + |sub|][k] == text[i + k];
  }

  /** `xs.filter(y => y !== x)`: drop every occurrence of `x`. */
  function RemoveAll(xs: seq<string>, x: string): (r: seq<string>)
    ensures x !in r
    ensures forall y :: y != x ==> multiset(r)[y] == multiset(xs)[y]
    ensures x !in xs ==> r == xs
  {
    if xs == [] then []
    else if xs[0] == x then
      assert xs == [xs[0]] + xs[1..];
      RemoveAll(xs[1..], x)
    else
      assert xs == [xs[0]] + xs[1..];
      [xs[0]] + RemoveAll(xs[1..], x)
  }

  /** Removing occurrences keeps the survivors in their original order. */
  lemma {:induction false} RemoveAllKeepsOrder(xs: seq<string>, x: string)
    ensures IsSubseq(RemoveAll(xs, x), xs)
  {
    if xs != [] {
      RemoveAllKeepsOrder(xs[1..], x);
      if xs[0] != x {
        assert RemoveAll(xs, x)[1..] == RemoveAll(xs[1..], x);
      }
    }
  }

  /** `s.split('\n')`: the pieces between newlines, always at least one. */
  function SplitLines(s: string): (r: seq<string>)
    ensures |r| >= 1
    ensures forall k :: 0 <= k < |r| ==> '\n' !in r[k]
  {
    if s == [] then [""]
    else
      var rest := SplitLines(s[1..]);
      if s[0] == '\n' then [""] + rest
      else [[s[0]] + rest[0]] + rest[1..]
  }

  /** `lines.join('\n')`. */
  function JoinLines(lines: seq<string>): string
    requires |lines| >= 1
  {
    if |lines| == 1 then lines[0] else lines[0] + "\n" + JoinLines(lines[1..])
  }

  lemma {:induction false} SplitNoNewline(s: string)
    requires '\n' !in s
    ensures SplitLines(s) == [s]
  {
    if s != [] {
      SplitNoNewline(s[1..]);
      assert [s[0]] + s[1..] == s;
    }
  }

  lemma {:induction false} SplitAfterLine(a: string, b: string)
    requires '\n' !in a
    ensures SplitLines(a + "\n" + b) == [a] + SplitLines(b)
  {
    if a == [] {
      assert a + "\n" + b == ['\n'] + b;
      assert (['\n'] + b)[1..] == b;
    } else {
      SplitAfterLine(a[1..], b);
      assert (a + "\n" + b)[1..] == a[1..] + "\n" + b;
      assert [a[0]] + a[1..] == a;
    }
  }

  /** Splitting a newline-joined text gives back its lines, provided no
      line contains a newline itself. */
  lemma {:induction false} SplitJoinRoundTrip(lines: seq<string>)
    requires |lines| >= 1
    requires forall k :: 0 <= k < |lines| ==> '\n' !in lines[k]
    ensures SplitLines(JoinLines(lines)) == lines
  {
    if |lines| == 1 {
      SplitNoNewline(lines[0]);
    } else {
      SplitJoinRoundTrip(lines[1..]);
      SplitAfterLine(lines[0], JoinLines(lines[1..]));
    }
  }

  function DigitChar(d: nat): char
    requires d < 10
  {
    ('0' as int + d) as char
  }

  /** Decimal rendering of a natural number, as a template literal shows it. */
  function NatToString(n: nat): (r: string)
    ensures |r| >= 1
    ensures forall k :: 0 <= k < |r| ==> '0' <= r[k] <= '9'
    decreases n
  {
    if n < 10 then [DigitChar(n)] else NatToString(n / 10) + [DigitChar(n % 10)]
  }

  /** The number a string of decimal digits denotes. */
  function DigitsValue(s: string): nat
    requires forall k :: 0 <= k < |s| ==> '0' <= s[k] <= '9'
  {
    if s == [] then 0 else 10 * DigitsValue(s[..|s| - 1]) + (s[|s| - 1] as int - '0' as int)
  }

  /** Reading the rendered digits back gives the number. */
  lemma {:induction false} NatToStringRoundTrip(n: nat)
    ensures DigitsValue(NatToString(n)) == n
    decreases n
  {
    if n >= 10 {
      var s := NatToString(n);
      assert s[..|s| - 1] == NatToString(n / 10);
      NatToStringRoundTrip(n / 10);
    }
  }

  /** `s.indexOf(x)` for an element that is present: its first position. */
  function IndexOf(s: seq<string>, x: string): (i: nat)
    requires x in s
    ensures i < |s| && s[i] == x
    ensures forall j :: 0 <= j < i ==> s[j] != x
  {
    if s[0] == x then 0 else 1 + IndexOf(s[1..], x)
  }
}
