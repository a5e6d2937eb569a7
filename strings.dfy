/** Python's `str.split` with a one-character separator, the only string
    splitting the modelled code does (`value.split(':')`,
    `proto_path.split('/')`, `proto_filename.split('.')`), and its inverse
    `sep.join(parts)`. */
module Strings {

  /** The number of occurrences of `c` in `s`. */
  function Count(s: string, c: char): nat {
    if s == [] then 0 else (if s[0] == c then 1 else 0) + Count(s[1..], c)
  }

  /** Python's `sep.join(parts)`. */
  function Join(parts: seq<string>, sep: char): string
    requires |parts| >= 1
  {
    if |parts| == 1 then parts[0] else parts[0] + [sep] + Join(parts[1..], sep)
  }

  /** Python's `s.split(sep)`: one more part than there are separators, no
      part holds the separator, and joining the parts gives `s` back. */
  function Split(s: string, sep: char): (parts: seq<string>)
    ensures |parts| == Count(s, sep) + 1
    ensures forall i :: 0 <= i < |parts| ==> sep !in parts[i]
    ensures Join(parts, sep) == s
  {
    if s == [] then [""]
    else
      var rest := Split(s[1..], sep);
      if s[0] == sep then [""] + rest
      else [[s[0]] + rest[0]] + rest[1..]
  }

  /** `s.split(sep)[0]`: the text before the first separator. */
  function First(s: string, sep: char): string {
    Split(s, sep)[0]
  }

  /** `s.split(sep)[-1]`: the text after the last separator. */
  function Last(s: string, sep: char): string {
    var parts := Split(s, sep);
    parts[|parts| - 1]
  }

  /** Python's `s.isdigit()` restricted to the ASCII digits. */
  predicate IsDigits(s: string) {
    |s| > 0 && forall i :: 0 <= i < |s| ==> '0' <= s[i] <= '9'
  }

  lemma {:induction false} SplitWithoutSeparator(a: string, sep: char)
    requires sep !in a
    ensures Split(a, sep) == [a]
  {
    if a != [] {
      SplitWithoutSeparator(a[1..], sep);
    }
  }

  lemma {:induction false} SplitPrepend(a: string, t: string, sep: char)
    requires sep !in a
    ensures Split(a + [sep] + t, sep) == [a] + Split(t, sep)
  {
    var s := a + [sep] + t;
    if a == [] {
      assert s[1..] == t;
    } else {
      assert s[1..] == a[1..] + [sep] + t;
      SplitPrepend(a[1..], t, sep);
      assert [a[0]] + a[1..] == a;
    }
  }

  /** Splitting undoes joining, for parts free of the separator: together
      with Split's own contract, `Split` and `Join` are inverses. */
  lemma {:induction false} SplitJoin(parts: seq<string>, sep: char)
    requires |parts| >= 1
    requires forall i :: 0 <= i < |parts| ==> sep !in parts[i]
    ensures Split(Join(parts, sep), sep) == parts
  {
    if |parts| == 1 {
      SplitWithoutSeparator(parts[0], sep);
    } else {
      SplitJoin(parts[1..], sep);
      SplitPrepend(parts[0], Join(parts[1..], sep), sep);
    }
  }

  lemma {:induction false} JoinLast(parts: seq<string>, sep: char)
    requires |parts| >= 2
    ensures Join(parts, sep) == Join(parts[..|parts| - 1], sep) + [sep] + parts[|parts| - 1]
  {
    if |parts| > 2 {
      JoinLast(parts[1..], sep);
      assert parts[1..][..|parts| - 2] == parts[..|parts| - 1][1..];
    }
  }

  /** The first part is the longest prefix of `s` without a separator. */
  lemma FirstIsPrefix(s: string, sep: char)
    ensures var p := First(s, sep);
      && sep !in p && |p| <= |s| && s[..|p|] == p
      && (|p| == |s| || s[|p|] == sep)
  {
    var parts := Split(s, sep);
    if |parts| > 1 {
      assert s == parts[0] + [sep] + Join(parts[1..], sep);
    }
  }

  /** The last part is the longest suffix of `s` without a separator. */
  lemma LastIsSuffix(s: string, sep: char)
    ensures var p := Last(s, sep);
      && sep !in p && |p| <= |s| && s[|s| - |p|..] == p
      && (|p| == |s| || s[|s| - |p| - 1] == sep)
  {
    var parts := Split(s, sep);
    if |parts| > 1 {
      JoinLast(parts, sep);
      assert s == Join(parts[..|parts| - 1], sep) + [sep] + parts[|parts| - 1];
    }
  }

  /** A string with exactly one separator is the two parts around it. */
  lemma SplitOneSeparator(s: string, sep: char)
    requires Count(s, sep) == 1
    ensures var parts := Split(s, sep);
      |parts| == 2 && s == parts[0] + [sep] + parts[1]
  {
    var parts := Split(s, sep);
    assert parts[1..] == [parts[1]];
  }

  /** Appending a separator and a separator-free tail adds exactly that
      tail as a new last part. */
  lemma {:induction false} SplitAppend(a: string, b: string, sep: char)
    requires sep !in b
    ensures Split(a + [sep] + b, sep) == Split(a, sep) + [b]
  {
    var s := a + [sep] + b;
    if a == [] {
      assert s[1..] == b;
      SplitWithoutSeparator(b, sep);
    } else {
      assert s[1..] == a[1..] + [sep] + b;
      SplitAppend(a[1..], b, sep);
    }
  }

  /** The last part of `a + sep + b` is `b` when `b` has no separator. */
  lemma LastAfterSeparator(a: string, b: string, sep: char)
    requires sep !in b
    ensures Last(a + [sep] + b, sep) == b
  {
    SplitAppend(a, b, sep);
  }

  /** No occurrence is counted exactly when the character is absent. */
  lemma {:induction false} CountZeroIffAbsent(s: string, c: char)
    ensures Count(s, c) == 0 <==> c !in s
  {
    if s != [] {
      CountZeroIffAbsent(s[1..], c);
      assert s == [s[0]] + s[1..];
    }
  }

  /** A string without the separator is its own first and last part. */
  lemma NoSeparatorIsWhole(a: string, sep: char)
    requires sep !in a
    ensures First(a, sep) == a && Last(a, sep) == a
  {
    SplitWithoutSeparator(a, sep);
  }
}
