/** The few operations of Python's `str` the tool relies on, for one-character separators. */
module Strings {

  /** Index of the first occurrence of `c` in `s`; `|s|` when `c` does not occur. */
  function IndexOf(s: string, c: char): (i: nat)
    ensures i <= |s|
    ensures i < |s| ==> s[i] == c
    ensures forall j :: 0 <= j < i ==> s[j] != c
  {
    if s == [] then 0
    else if s[0] == c then 0
    else 1 + IndexOf(s[1..], c)
  }

  /** Number of occurrences of `c` in `s`. */
  function Count(c: char, s: string): nat
  {
    if s == [] then 0
    else (if s[0] == c then 1 else 0) + Count(c, s[1..])
  }

  /** `sep.join(parts)`. */
  function Join(parts: seq<string>, sep: char): string
  {
    if parts == [] then ""
    else if |parts| == 1 then parts[0]
    else parts[0] + [sep] + Join(parts[1..], sep)
  }

  /** No part but possibly the last holds the separator, and the last part holds
      it only when the split stopped at `maxsplit`. */
  ghost predicate IsSplit(parts: seq<string>, sep: char, maxsplit: nat)
  {
    && 1 <= |parts| <= maxsplit + 1
    && (forall k :: 0 <= k < |parts| - 1 ==> sep !in parts[k])
    && (|parts| < maxsplit + 1 ==> sep !in parts[|parts| - 1])
  }

  /** `s.split(sep, maxsplit)`: cuts `s` at its first `maxsplit` occurrences of `sep`. */
  function Split(s: string, sep: char, maxsplit: nat): (parts: seq<string>)
    ensures IsSplit(parts, sep, maxsplit)
    ensures Join(parts, sep) == s
    decreases maxsplit
  {
    var i := IndexOf(s, sep);
    if maxsplit == 0 || i == |s| then [s]
    else
      var rest := Split(s[i + 1..], sep, maxsplit - 1);
      assert s == s[..i] + [sep] + s[i + 1..];
      [s[..i]] + rest
  }

  lemma {:induction false} CountConcat(c: char, a: string, b: string)
    ensures Count(c, a + b) == Count(c, a) + Count(c, b)
    decreases |a|
  {
    if a == [] {
      assert a + b == b;
    } else {
      assert (a + b)[1..] == a[1..] + b;
      CountConcat(c, a[1..], b);
    }
  }

  lemma {:induction false} CountAbsent(c: char, s: string)
    requires c !in s
    ensures Count(c, s) == 0
    decreases |s|
  {
    if s != [] {
      CountAbsent(c, s[1..]);
    }
  }

  /** The separator occurs in the joined string as often as it separates parts,
      plus as often as it occurs inside the last part. */
  lemma {:induction false} CountJoin(parts: seq<string>, sep: char)
    requires |parts| >= 1
    requires forall k :: 0 <= k < |parts| - 1 ==> sep !in parts[k]
    ensures Count(sep, Join(parts, sep)) == |parts| - 1 + Count(sep, parts[|parts| - 1])
    decreases |parts|
  {
    if |parts| > 1 {
      CountJoin(parts[1..], sep);
      CountConcat(sep, parts[0] + [sep], Join(parts[1..], sep));
      CountConcat(sep, parts[0], [sep]);
      CountAbsent(sep, parts[0]);
      assert Count(sep, [sep]) == 1 by {
        assert [sep][1..] == [];
      }
    }
  }

  /** The first occurrence of `c` in `a + [c] + b`, when `a` lacks `c`, is the one after `a`. */
  lemma {:induction false} IndexOfAfter(a: string, c: char, b: string)
    requires c !in a
    ensures IndexOf(a + [c] + b, c) == |a|
  {
    var s := a + [c] + b;
    assert forall j :: 0 <= j < |a| ==> s[j] == a[j];
    assert s[|a|] == c;
  }

  /** Splitting at a first separator that follows a separator-free `head`. */
  lemma SplitAfter(head: string, sep: char, tail: string, maxsplit: nat)
    requires sep !in head && maxsplit > 0
    ensures Split(head + [sep] + tail, sep, maxsplit) == [head] + Split(tail, sep, maxsplit - 1)
  {
    var s := head + [sep] + tail;
    IndexOfAfter(head, sep, tail);
    assert s[..|head|] == head;
    assert s[|head| + 1..] == tail;
  }

  lemma SplitTail(parts: seq<string>, sep: char, maxsplit: nat)
    requires IsSplit(parts, sep, maxsplit) && |parts| > 1
    ensures IsSplit(parts[1..], sep, maxsplit - 1)
  {
    var rest := parts[1..];
    forall k | 0 <= k < |rest| - 1 ensures sep !in rest[k] {
      assert rest[k] == parts[k + 1];
    }
    assert rest[|rest| - 1] == parts[|parts| - 1];
  }

  /** Splitting undoes joining: a well-formed split is the only split of its join. */
  lemma {:induction false} SplitJoin(parts: seq<string>, sep: char, maxsplit: nat)
    requires IsSplit(parts, sep, maxsplit)
    ensures Split(Join(parts, sep), sep, maxsplit) == parts
    decreases maxsplit
  {
    if |parts| == 1 {
      var s := Join(parts, sep);
      assert s == parts[0];
      if maxsplit > 0 {
        assert sep !in s;
        assert IndexOf(s, sep) == |s|;
      }
    } else {
      var head, rest := parts[0], parts[1..];
      var tail := Join(rest, sep);
      assert Join(parts, sep) == head + [sep] + tail;
      SplitTail(parts, sep, maxsplit);
      SplitJoin(rest, sep, maxsplit - 1);
      assert Split(tail, sep, maxsplit - 1) == rest;
      SplitAfter(head, sep, tail, maxsplit);
      assert Split(Join(parts, sep), sep, maxsplit) == [head] + rest;
      assert parts == [head] + rest;
    }
  }
}
