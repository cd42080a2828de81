/** Strings as the service handles them: sequences of code points, split and joined on one character. */
module Strings {

  /** Index of the first `c` in `s`, or `|s|` when there is none. */
  function IndexOf(s: string, c: char): (i: nat)
    ensures i <= |s|
    ensures i < |s| ==> s[i] == c
    ensures forall j :: 0 <= j < i ==> s[j] != c
  {
    if s == "" || s[0] == c then 0 else 1 + IndexOf(s[1..], c)
  }

  /** Python's `s.split(c)` for a one-character separator. */
  function Split(s: string, c: char): (parts: seq<string>)
    ensures |parts| >= 1
    ensures forall i :: 0 <= i < |parts| ==> c !in parts[i]
    decreases |s|
  {
    var i := IndexOf(s, c);
    if i == |s| then [s] else [s[..i]] + Split(s[i + 1..], c)
  }

  /** Python's `c.join(parts)`. */
  function Join(parts: seq<string>, c: char): string
  {
    if |parts| == 0 then "" else if |parts| == 1 then parts[0] else parts[0] + [c] + Join(parts[1..], c)
  }

  lemma IndexOfAt(s: string, c: char, i: nat)
    requires i <= |s|
    requires forall j :: 0 <= j < i ==> s[j] != c
    requires i < |s| ==> s[i] == c
    ensures IndexOf(s, c) == i
  {
  }

  lemma SplitAt(s: string, c: char, i: nat)
    requires i < |s| && s[i] == c
    requires forall j :: 0 <= j < i ==> s[j] != c
    ensures Split(s, c) == [s[..i]] + Split(s[i + 1..], c)
  {
    IndexOfAt(s, c, i);
  }

  lemma SplitWhole(s: string, c: char)
    requires c !in s
    ensures Split(s, c) == [s]
  {
    IndexOfAt(s, c, |s|);
  }

  lemma SplitCons(first: string, rest: string, c: char)
    requires c !in first
    ensures Split(first + [c] + rest, c) == [first] + Split(rest, c)
  {
    hide Split;
    var s := first + [c] + rest;
    NotInAt(first, c);
    assert s[..|first|] == first && s[|first| + 1..] == rest;
    SplitAt(s, c, |first|);
  }

  lemma JoinCons(first: string, rest: seq<string>, c: char)
    requires rest != []
    ensures Join([first] + rest, c) == first + [c] + Join(rest, c)
  {
    assert ([first] + rest)[1..] == rest;
  }

  lemma {:induction false} JoinOfSplit(s: string, c: char)
    ensures Join(Split(s, c), c) == s
    decreases |s|
  {
    hide Split;
    var i := IndexOf(s, c);
    if i == |s| {
      SplitWhole(s, c);
    } else {
      hide Join;
      SplitAt(s, c, i);
      JoinOfSplit(s[i + 1..], c);
      JoinCons(s[..i], Split(s[i + 1..], c), c);
      assert s == s[..i] + [c] + s[i + 1..];
    }
  }

  lemma {:induction false} SplitOfJoin(parts: seq<string>, c: char)
    requires |parts| >= 1
    requires forall i :: 0 <= i < |parts| ==> c !in parts[i]
    ensures Split(Join(parts, c), c) == parts
  {
    hide Split;
    if |parts| == 1 {
      SplitWhole(parts[0], c);
    } else {
      hide Join;
      assert parts == [parts[0]] + parts[1..];
      JoinCons(parts[0], parts[1..], c);
      SplitOfJoin(parts[1..], c);
      SplitCons(parts[0], Join(parts[1..], c), c);
    }
  }

  function Last<T>(s: seq<T>): T
    requires s != []
  {
    s[|s| - 1]
  }

  /** The list with `tail` appended to its last string. */
  function ExtendLast(parts: seq<string>, tail: string): (r: seq<string>)
    requires parts != []
    ensures |r| == |parts|
  {
    parts[..|parts| - 1] + [Last(parts) + tail]
  }

  lemma ExtendLastCons(first: string, rest: seq<string>, tail: string)
    requires rest != []
    ensures ExtendLast([first] + rest, tail) == [first] + ExtendLast(rest, tail)
  {
  }

  lemma NotInAt(s: string, c: char)
    requires c !in s
    ensures forall i :: 0 <= i < |s| ==> s[i] != c
  {
  }

  /** Appending text without a separator only extends the last part. */
  lemma {:induction false} SplitAppend(s: string, tail: string, c: char)
    requires c !in tail
    ensures Split(s + tail, c) == ExtendLast(Split(s, c), tail)
    decreases |s|
  {
    hide Split, ExtendLast;
    var i := IndexOf(s, c);
    if i == |s| {
      SplitWhole(s, c);
      SplitWhole(s + tail, c);
      ExtendOnly(s, tail);
    } else {
      var rest := s[i + 1..];
      SplitAppend(rest, tail, c);
      SplitAt(s, c, i);
      SplitShifted(s, tail, c, i);
      ExtendLastCons(s[..i], Split(rest, c), tail);
    }
  }

  lemma ExtendOnly(s: string, tail: string)
    ensures ExtendLast([s], tail) == [s + tail]
  {
  }

  lemma SplitShifted(s: string, tail: string, c: char, i: nat)
    requires i < |s| && s[i] == c
    requires forall j :: 0 <= j < i ==> s[j] != c
    ensures Split(s + tail, c) == [s[..i]] + Split(s[i + 1..] + tail, c)
  {
    SplitAt(s + tail, c, i);
    assert (s + tail)[..i] == s[..i];
    assert (s + tail)[i + 1..] == s[i + 1..] + tail;
  }

  /** The characters of a string are those of its parts plus the separators. */
  lemma {:induction false} CharsOfSplit(s: string, c: char, x: char)
    requires x != c
    ensures x in s <==> exists i :: 0 <= i < |Split(s, c)| && x in Split(s, c)[i]
    decreases |s|
  {
    hide Split;
    var i := IndexOf(s, c);
    if i == |s| {
      SplitWhole(s, c);
      assert Split(s, c)[0] == s;
    } else {
      SplitAt(s, c, i);
      CharsOfSplit(s[i + 1..], c, x);
      assert s == s[..i] + [c] + s[i + 1..];
      CharsOfCons(s[..i], Split(s[i + 1..], c), x);
    }
  }

  lemma NotInParts(s: string, c: char, x: char)
    requires x != c && x !in s
    ensures forall i :: 0 <= i < |Split(s, c)| ==> x !in Split(s, c)[i]
  {
    CharsOfSplit(s, c, x);
  }

  lemma CharsOfCons(first: string, rest: seq<string>, x: char)
    ensures (exists i :: 0 <= i < |[first] + rest| && x in ([first] + rest)[i]) <==>
            x in first || exists i :: 0 <= i < |rest| && x in rest[i]
  {
    var parts := [first] + rest;
    assert parts[0] == first;
    assert forall i :: 0 <= i < |rest| ==> parts[i + 1] == rest[i];
    assert forall i :: 0 < i < |parts| ==> parts[i] == rest[i - 1];
  }

  predicate StartsWith(s: string, prefix: string)
  {
    prefix <= s
  }

  predicate EndsWith(s: string, suffix: string)
  {
    |suffix| <= |s| && s[|s| - |suffix|..] == suffix
  }

  /** Chunks of a byte stream, in order, as one sequence. */
  function Concat<T>(chunks: seq<seq<T>>): seq<T>
  {
    if chunks == [] then [] else chunks[0] + Concat(chunks[1..])
  }

  lemma {:induction false} ConcatSnoc<T>(chunks: seq<seq<T>>, last: seq<T>)
    ensures Concat(chunks + [last]) == Concat(chunks) + last
  {
    if chunks == [] {
      assert chunks + [last] == [last];
      assert Concat([last]) == last + Concat<T>([]);
    } else {
      assert (chunks + [last])[1..] == chunks[1..] + [last];
      ConcatSnoc(chunks[1..], last);
      assert chunks[0] + (Concat(chunks[1..]) + last) == (chunks[0] + Concat(chunks[1..])) + last;
    }
  }

  lemma {:induction false} ConcatPrefix<T>(chunks: seq<seq<T>>, n: nat)
    requires n <= |chunks|
    ensures Concat(chunks[..n]) <= Concat(chunks)
  {
    if n == |chunks| {
      assert chunks[..n] == chunks;
    } else {
      ConcatPrefix(chunks[..|chunks| - 1], n);
      assert chunks[..|chunks| - 1][..n] == chunks[..n];
      assert chunks == chunks[..|chunks| - 1] + [chunks[|chunks| - 1]];
      ConcatSnoc(chunks[..|chunks| - 1], chunks[|chunks| - 1]);
    }
  }
}
