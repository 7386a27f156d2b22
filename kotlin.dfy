/** Kotlin and Java standard-library behaviour that the plugin relies on:
    the string helpers with their Kotlin semantics, java.io.File names,
    the directory tree that listFiles() walks, and the list operations
    (filter, distinct, joinToString, split) used throughout. */
module Kotlin {

  datatype Option<+T> = None | Some(value: T)

  // ------------------------------------------------------------------ strings

  /** String.indexOf(c): the first index of c, or -1. */
  function IndexOf(s: string, c: char): (r: int)
    ensures -1 <= r < |s|
    ensures r >= 0 ==> s[r] == c && c !in s[..r]
    ensures r < 0 <==> c !in s
  {
    if |s| == 0 then -1
    else if s[0] == c then 0
    else
      var k := IndexOf(s[1..], c);
      if k < 0 then -1
      else
        assert s[..k + 1] == [s[0]] + s[1..][..k];
        k + 1
  }

  /** String.lastIndexOf(c): the last index of c, or -1. */
  function LastIndexOf(s: string, c: char): (r: int)
    ensures -1 <= r < |s|
    ensures r >= 0 ==> s[r] == c && c !in s[r + 1..]
    ensures r < 0 <==> c !in s
  {
    if |s| == 0 then -1
    else if s[|s| - 1] == c then |s| - 1
    else
      var k := LastIndexOf(s[..|s| - 1], c);
      if k >= 0 then
        assert s[k + 1..] == s[..|s| - 1][k + 1..] + [s[|s| - 1]];
        k
      else
        assert s == s[..|s| - 1] + [s[|s| - 1]];
        -1
  }

  /** String.substringBeforeLast(c): the text before the last c, or the
      whole string when c does not occur. */
  function SubstringBeforeLast(s: string, c: char): string
  {
    var i := LastIndexOf(s, c);
    if i < 0 then s else s[..i]
  }

  /** String.substringAfterLast(c, missing): the text after the last c,
      or `missing` when c does not occur. */
  function SubstringAfterLast(s: string, c: char, missing: string): string
  {
    var i := LastIndexOf(s, c);
    if i < 0 then missing else s[i + 1..]
  }

  /** The two halves around the last c put the string back together, and
      the part after it holds no c. */
  lemma SplitAtLast(s: string, c: char)
    requires c in s
    ensures SubstringBeforeLast(s, c) + [c] + SubstringAfterLast(s, c, "") == s
    ensures c !in SubstringAfterLast(s, c, "")
    ensures |SubstringBeforeLast(s, c)| < |s|
  {
    var i := LastIndexOf(s, c);
    assert s == s[..i] + [s[i]] + s[i + 1..];
  }

  /** Without a c, substringBeforeLast is the identity and
      substringAfterLast gives `missing`. */
  lemma SplitAtLastAbsent(s: string, c: char, missing: string)
    requires c !in s
    ensures SubstringBeforeLast(s, c) == s
    ensures SubstringAfterLast(s, c, missing) == missing
  {
  }

  /** `sub` occurs in s at index j. */
  predicate OccursAt(s: string, sub: string, j: int)
  {
    0 <= j && j + |sub| <= |s| && s[j..j + |sub|] == sub
  }

  /** String.indexOf(sub, from): the first index at or after `from` where
      sub occurs, or -1. */
  function IndexOfString(s: string, sub: string, from: nat := 0): (r: int)
    ensures r == -1 || (from <= r && OccursAt(s, sub, r))
    ensures forall j :: from <= j && (r == -1 || j < r) ==> !OccursAt(s, sub, j)
    decreases |s| - from
  {
    if from + |sub| > |s| then -1
    else if OccursAt(s, sub, from) then from
    else IndexOfString(s, sub, from + 1)
  }

  /** CharSequence.contains(sub). */
  predicate Contains(s: string, sub: string)
  {
    IndexOfString(s, sub) >= 0
  }

  /** String.startsWith(prefix). */
  predicate StartsWith(s: string, prefix: string)
  {
    |prefix| <= |s| && s[..|prefix|] == prefix
  }

  /** String.endsWith(suffix). */
  predicate EndsWith(s: string, suffix: string)
  {
    |suffix| <= |s| && s[|s| - |suffix|..] == suffix
  }

  /** String.substringBefore(delimiter): the text before the first
      delimiter, or the whole string when it does not occur. */
  function SubstringBefore(s: string, delimiter: string): (r: string)
    ensures !Contains(s, delimiter) ==> r == s
    ensures Contains(s, delimiter) ==> StartsWith(s, r + delimiter)
    ensures Contains(s, delimiter) ==> forall j :: 0 <= j < |r| ==> !OccursAt(s, delimiter, j)
  {
    var i := IndexOfString(s, delimiter);
    if i < 0 then s
    else
      assert s[..i] + delimiter == s[..i + |delimiter|] by {
        assert s[i..i + |delimiter|] == delimiter;
      }
      s[..i]
  }

  /** Char.isWhitespace(): Java's whitespace or a Unicode space separator. */
  predicate IsWhitespace(c: char)
  {
    var n := c as int;
    (9 <= n <= 13) || (28 <= n <= 32) || n == 0xA0 || n == 0x1680 ||
    (0x2000 <= n <= 0x200A) || n == 0x2028 || n == 0x2029 || n == 0x202F ||
    n == 0x205F || n == 0x3000
  }

  /** CharSequence.isBlank(): empty or whitespace only. */
  predicate IsBlank(s: string)
  {
    forall i :: 0 <= i < |s| ==> IsWhitespace(s[i])
  }

  /** String.split(c) with one delimiter: every part, empty ones included. */
  function Split(s: string, c: char): (r: seq<string>)
    ensures |r| >= 1
    ensures forall i :: 0 <= i < |r| ==> c !in r[i]
    ensures c !in s ==> r == [s]
    decreases |s|
  {
    var i := IndexOf(s, c);
    if i < 0 then [s] else [s[..i]] + Split(s[i + 1..], c)
  }

  /** Splitting a string that starts with a c-free part and a c gives that
      part, then the split of the rest. */
  lemma SplitCons(head: string, c: char, rest: string)
    requires c !in head
    ensures Split(head + [c] + rest, c) == [head] + Split(rest, c)
  {
    var s := head + [c] + rest;
    assert s[|head|] == c;
    assert c !in s[..|head|] by { assert s[..|head|] == head; }
    assert s[..|head|] == head && s[|head| + 1..] == rest;
  }

  /** Iterable.joinToString(separator). */
  function Join(parts: seq<string>, separator: string): string
  {
    if |parts| == 0 then ""
    else if |parts| == 1 then parts[0]
    else parts[0] + separator + Join(parts[1..], separator)
  }

  lemma JoinCons(head: string, rest: seq<string>, separator: string)
    requires rest != []
    ensures Join([head] + rest, separator) == head + separator + Join(rest, separator)
  {
    assert ([head] + rest)[1..] == rest;
  }

  /** Splitting on c and joining with c gives back the string. */
  lemma {:induction false} JoinSplit(s: string, c: char)
    ensures Join(Split(s, c), [c]) == s
    decreases |s|
  {
    var i := IndexOf(s, c);
    if i >= 0 {
      var head, rest := s[..i], s[i + 1..];
      var parts := Split(rest, c);
      assert Split(s, c) == [head] + parts;
      JoinSplit(rest, c);
      JoinCons(head, parts, [c]);
      Around(s, i);
    }
  }

  /** A string is the part before index i, the character there, and the
      part after it. */
  lemma Around(s: string, i: nat)
    requires i < |s|
    ensures s == s[..i] + [s[i]] + s[i + 1..]
  {
  }

  // ------------------------------------------------------------ collections

  /** Concatenation regroups freely. */
  lemma AppendAssoc<T>(a: seq<T>, b: seq<T>, c: seq<T>)
    ensures a + (b + c) == (a + b) + c
  {
  }

  /** Iterable.filter(p). */
  function Filter<T(!new)>(s: seq<T>, p: T -> bool): (r: seq<T>)
    ensures |r| <= |s|
    ensures forall x :: x in r <==> x in s && p(x)
    ensures IsSubsequence(r, s)
  {
    if s == [] then []
    else if p(s[0]) then [s[0]] + Filter(s[1..], p)
    else SubsequenceCons(Filter(s[1..], p), s[0], s[1..]); Filter(s[1..], p)
  }

  /** Filtering keeps every copy of a passing element and drops every copy
      of a failing one. */
  lemma {:induction false} FilterCount<T(!new)>(s: seq<T>, p: T -> bool)
    ensures forall x :: multiset(Filter(s, p))[x] == if p(x) then multiset(s)[x] else 0
  {
    if s != [] {
      assert s == [s[0]] + s[1..];
      FilterCount(s[1..], p);
    }
  }

  /** Filtering a list with one more element at the end keeps the filtered
      prefix and adds the element when it passes. */
  lemma {:induction false} FilterAppend<T(!new)>(s: seq<T>, x: T, p: T -> bool)
    ensures Filter(s + [x], p) == Filter(s, p) + (if p(x) then [x] else [])
  {
    if s != [] {
      assert (s + [x])[1..] == s[1..] + [x];
      FilterAppend(s[1..], x, p);
    }
  }

  /** Iterable.map(f). */
  function Map<A, B>(s: seq<A>, f: A -> B): (r: seq<B>)
    ensures |r| == |s|
    ensures forall i :: 0 <= i < |s| ==> r[i] == f(s[i])
  {
    seq(|s|, i requires 0 <= i < |s| => f(s[i]))
  }

  /** a is b with some elements left out, order kept. */
  predicate IsSubsequence<T(==)>(a: seq<T>, b: seq<T>)
    decreases |b|
  {
    if a == [] then true
    else if b == [] then false
    else if a[0] == b[0] then IsSubsequence(a[1..], b[1..])
    else IsSubsequence(a, b[1..])
  }

  /** Putting an element in front of b keeps a a subsequence of it. */
  lemma SubsequenceCons<T>(a: seq<T>, x: T, b: seq<T>)
    requires IsSubsequence(a, b)
    ensures IsSubsequence(a, [x] + b)
    decreases |b|, 1
  {
    assert ([x] + b)[1..] == b;
    if a != [] && a[0] == x {
      SubsequenceTail(a, b);
    }
  }

  /** Dropping the first element of a keeps it a subsequence of b. */
  lemma SubsequenceTail<T>(a: seq<T>, b: seq<T>)
    requires a != [] && IsSubsequence(a, b)
    ensures IsSubsequence(a[1..], b)
    decreases |b|, 0
  {
    assert b == [b[0]] + b[1..];
    if a[0] != b[0] {
      SubsequenceTail(a, b[1..]);
    }
    SubsequenceCons(a[1..], b[0], b[1..]);
  }

  /** No element occurs twice. */
  predicate NoDuplicates<T(==)>(s: seq<T>)
  {
    forall i, j :: 0 <= i < j < |s| ==> s[i] != s[j]
  }

  /** Iterable.toSet() read back in iteration order (a LinkedHashSet): the
      first occurrence of every element, in order. */
  function Distinct<T(==,!new)>(s: seq<T>): (r: seq<T>)
    ensures forall x :: x in r <==> x in s
    ensures NoDuplicates(r)
    ensures |r| <= |s|
  {
    if s == [] then []
    else
      var d := Distinct(s[..|s| - 1]);
      assert s == s[..|s| - 1] + [s[|s| - 1]];
      if s[|s| - 1] in d then d else d + [s[|s| - 1]]
  }

  /** Distinct keeps the order of first occurrences: a is placed before b
      when a's first occurrence comes before b's. */
  lemma {:induction false} DistinctOrder<T(!new)>(s: seq<T>, i: nat, j: nat)
    requires i < j < |s| && s[i] !in s[..i] && s[j] !in s[..j]
    ensures exists p, q :: 0 <= p < q < |Distinct(s)| && Distinct(s)[p] == s[i] && Distinct(s)[q] == s[j]
    decreases |s|
  {
    var init := s[..|s| - 1];
    var d := Distinct(init);
    if j < |s| - 1 {
      assert init[..i] == s[..i] && init[..j] == s[..j];
      DistinctOrder(init, i, j);
      var p, q :| 0 <= p < q < |d| && d[p] == s[i] && d[q] == s[j];
      assert Distinct(s)[p] == d[p] && Distinct(s)[q] == d[q];
    } else {
      assert s[j] !in init by { assert init == s[..j]; }
      assert s[i] in d by { assert s[i] == init[i]; }
      var p :| 0 <= p < |d| && d[p] == s[i];
      assert Distinct(s) == d + [s[j]];
      assert Distinct(s)[p] == s[i] && Distinct(s)[|d|] == s[j];
    }
  }

  // ------------------------------------------------------------------ files

  /** A java.io.File: the names of the directories above it, and its name. */
  datatype File = File(parent: seq<string>, name: string)

  /** File.extension: the text after the last '.', or "". */
  function Extension(f: File): string
  {
    SubstringAfterLast(f.name, '.', "")
  }

  /** File.nameWithoutExtension: the text before the last '.', or the whole name. */
  function NameWithoutExtension(f: File): string
  {
    SubstringBeforeLast(f.name, '.')
  }

  /** A name with a '.' splits into base name, '.', extension; a name
      without one is its own base name and has extension "". */
  lemma NameParts(f: File)
    ensures '.' in f.name ==> NameWithoutExtension(f) + "." + Extension(f) == f.name
    ensures '.' !in f.name ==> NameWithoutExtension(f) == f.name && Extension(f) == ""
  {
    if '.' in f.name { SplitAtLast(f.name, '.'); }
  }

  /** A directory tree as File.listFiles() presents it: a regular file, or a
      directory with its entries in listing order. */
  datatype Node = Regular(name: string) | Directory(name: string, children: seq<Node>)

  /** The File for an entry found under the directory path `parent`. */
  function FileOf(n: Node, parent: seq<string>): File
  {
    File(parent, n.name)
  }

  /** The name starts with '.', the plugin's mark for entries that are not
      discovered automatically. */
  predicate Hidden(name: string)
  {
    StartsWith(name, ".")
  }
}
