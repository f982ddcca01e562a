/** The three string primitives the core relies on, over `seq<char>`:
    String.IsNullOrWhiteSpace, string.CompareOrdinal and String.Split. */
module Strings {

  /** char.IsWhiteSpace: the Unicode space, line and paragraph separators,
      U+0009 to U+000D and U+0085. */
  predicate IsWhiteSpace(c: char) {
    || ('\U{0009}' <= c <= '\U{000D}')
    || c == ' ' || c == '\U{0085}' || c == '\U{00A0}' || c == '\U{1680}'
    || ('\U{2000}' <= c <= '\U{200A}')
    || c == '\U{2028}' || c == '\U{2029}' || c == '\U{202F}' || c == '\U{205F}'
    || c == '\U{3000}'
  }

  /** String.IsNullOrWhiteSpace for a non-null string: empty or all white space. */
  predicate IsNullOrWhiteSpace(s: string) {
    forall i :: 0 <= i < |s| ==> IsWhiteSpace(s[i])
  }

  /** string.CompareOrdinal(a, b) < 0: `a` is a proper prefix of `b`, or the
      first character where they differ is smaller in `a`. */
  predicate OrdinalLess(a: string, b: string) {
    if |a| == 0 then |b| > 0
    else if |b| == 0 then false
    else if a[0] != b[0] then a[0] < b[0]
    else OrdinalLess(a[1..], b[1..])
  }

  lemma {:induction false} OrdinalLessIrreflexive(a: string)
    ensures !OrdinalLess(a, a)
  {
    if |a| > 0 {
      OrdinalLessIrreflexive(a[1..]);
    }
  }

  lemma {:induction false} OrdinalLessAsymmetric(a: string, b: string)
    requires OrdinalLess(a, b)
    ensures !OrdinalLess(b, a)
  {
    if |a| > 0 && |b| > 0 && a[0] == b[0] {
      OrdinalLessAsymmetric(a[1..], b[1..]);
    }
  }

  /** Ordinal comparison is total: two different strings are ordered one way. */
  lemma {:induction false} OrdinalLessTotal(a: string, b: string)
    ensures a == b || OrdinalLess(a, b) || OrdinalLess(b, a)
  {
    if |a| > 0 && |b| > 0 && a[0] == b[0] {
      OrdinalLessTotal(a[1..], b[1..]);
      if a[1..] == b[1..] {
        assert a == [a[0]] + a[1..] && b == [b[0]] + b[1..];
      }
    }
  }

  /** The parts joined back together, one separator between neighbours. */
  function Join(parts: seq<string>, separator: char): string
    requires |parts| >= 1
  {
    if |parts| == 1 then parts[0] else parts[0] + [separator] + Join(parts[1..], separator)
  }

  /** String.Split with one separator and default options: every occurrence
      splits, empty parts are kept, and at least one part is returned. */
  function Split(s: string, separator: char): (parts: seq<string>)
    ensures |parts| >= 1
    ensures Join(parts, separator) == s
    ensures forall k :: 0 <= k < |parts| ==> separator !in parts[k]
  {
    if |s| == 0 then [""]
    else if s[0] == separator then
      var rest := Split(s[1..], separator);
      assert s == [separator] + s[1..];
      [""] + rest
    else
      var rest := Split(s[1..], separator);
      var parts := [[s[0]] + rest[0]] + rest[1..];
      assert parts[1..] == rest[1..];
      assert s == [s[0]] + s[1..];
      parts
  }

  /** A separator-free prefix is absorbed into the first part. */
  lemma {:induction false} SplitPrefix(a: string, t: string, separator: char)
    requires separator !in a
    ensures Split(a + t, separator) == [a + Split(t, separator)[0]] + Split(t, separator)[1..]
  {
    if |a| > 0 {
      assert (a + t)[1..] == a[1..] + t;
      assert (a + t)[0] == a[0];
      SplitPrefix(a[1..], t, separator);
      assert [a[0]] + (a[1..] + Split(t, separator)[0]) == a + Split(t, separator)[0];
    } else {
      var parts := Split(t, separator);
      assert a + t == t && a + parts[0] == parts[0];
      assert parts == [parts[0]] + parts[1..];
    }
  }

  /** Splitting undoes joining when no part holds the separator. */
  lemma {:induction false} SplitJoin(parts: seq<string>, separator: char)
    requires |parts| >= 1
    requires forall k :: 0 <= k < |parts| ==> separator !in parts[k]
    ensures Split(Join(parts, separator), separator) == parts
  {
    if |parts| == 1 {
      SplitPrefix(parts[0], "", separator);
      assert parts[0] + "" == parts[0];
    } else {
      var tail := Join(parts[1..], separator);
      SplitJoin(parts[1..], separator);
      assert parts[0] + [separator] + tail == parts[0] + ([separator] + tail);
      SplitPrefix(parts[0], [separator] + tail, separator);
      assert ([separator] + tail)[1..] == tail;
      assert parts[0] + "" == parts[0];
      assert parts == [parts[0]] + parts[1..];
    }
  }
}
