/** The parts of Python's `str` the reader relies on: substring search,
    `str.split(sep)`, `sep.join(parts)`, `str.count` for one character, and the
    lexicographic order `<` of two strings. */
module Strings {
  import opened Wrappers

  /** `sep` occurs in `s` starting at index `i`. */
  predicate OccursAt(s: string, sep: string, i: int)
  {
    0 <= i && i + |sep| <= |s| && s[i..i + |sep|] == sep
  }

  /** Python's `sep in s`. */
  predicate Contains(s: string, sep: string)
  {
    exists i | 0 <= i <= |s| - |sep| :: OccursAt(s, sep, i)
  }

  /** The leftmost occurrence of `sep` in `s` at or after `from`: Python's `s.find(sep, from)`. */
  function FirstOccurrence(s: string, sep: string, from: nat): (r: Option<nat>)
    requires sep != [] && from <= |s|
    ensures r.Some? ==> from <= r.value && OccursAt(s, sep, r.value)
    decreases |s| - from
  {
    if from + |sep| > |s| then None
    else if forall k :: 0 <= k < |sep| ==> s[from + k] == sep[k] then Some(from)
    else FirstOccurrence(s, sep, from + 1)
  }

  /** The occurrence found is the leftmost one at or after `from`, and None means
      there is none. */
  lemma {:induction false} FirstOccurrenceLeftmost(s: string, sep: string, from: nat)
    requires sep != [] && from <= |s|
    ensures FirstOccurrence(s, sep, from).Some? ==>
      forall j :: from <= j < FirstOccurrence(s, sep, from).value ==> !OccursAt(s, sep, j)
    ensures FirstOccurrence(s, sep, from).None? ==> forall j :: from <= j ==> !OccursAt(s, sep, j)
    decreases |s| - from
  {
    if from + |sep| <= |s| && !OccursAt(s, sep, from) {
      FirstOccurrenceLeftmost(s, sep, from + 1);
    }
  }

  /** Python's `s.split(sep)`: cut at every occurrence of `sep`, scanning from the
      left and resuming after each occurrence found. */
  function Split(s: string, sep: string): (parts: seq<string>)
    requires sep != []
    ensures |parts| >= 1
    decreases |s|
  {
    match FirstOccurrence(s, sep, 0)
    case None => [s]
    case Some(i) => [s[..i]] + Split(s[i + |sep|..], sep)
  }

  /** Python's `sep.join(parts)`. */
  function Join(parts: seq<string>, sep: string): string
  {
    if parts == [] then []
    else if |parts| == 1 then parts[0]
    else parts[0] + sep + Join(parts[1..], sep)
  }

  /** Python's `s.count(c)` for a single character. */
  function CountChar(s: string, c: char): nat
  {
    if s == [] then 0 else (if s[0] == c then 1 else 0) + CountChar(s[1..], c)
  }

  /** Unfolding `Split` once, at the first occurrence of the separator. */
  lemma SplitAt(s: string, sep: string, i: nat)
    requires sep != []
    requires FirstOccurrence(s, sep, 0) == Some(i)
    ensures Split(s, sep) == [s[..i]] + Split(s[i + |sep|..], sep)
  {
    var first := FirstOccurrence(s, sep, 0);
    match first
    case Some(k) =>
      assert k == i;
  }

  /** A split yields a single part, the whole string, exactly when the separator does not occur. */
  lemma SplitOnePart(s: string, sep: string)
    requires sep != []
    ensures |Split(s, sep)| == 1 <==> !Contains(s, sep)
    ensures !Contains(s, sep) ==> Split(s, sep) == [s]
  {
    var first := FirstOccurrence(s, sep, 0);
    FirstOccurrenceLeftmost(s, sep, 0);
    if first.Some? {
      SplitAt(s, sep, first.value);
      assert OccursAt(s, sep, first.value);
    }
  }

  /** Two non-overlapping occurrences of the separator give at least three parts. */
  lemma SplitTwoOccurrences(s: string, sep: string, i: nat, j: nat)
    requires sep != []
    requires OccursAt(s, sep, i) && OccursAt(s, sep, j) && i + |sep| <= j
    ensures |Split(s, sep)| >= 3
  {
    var first := FirstOccurrence(s, sep, 0);
    FirstOccurrenceLeftmost(s, sep, 0);
    assert first.Some?;
    var k := first.value;
    assert k <= i;
    var rest := s[k + |sep|..];
    var j' := j - k - |sep|;
    assert rest[j'..j' + |sep|] == s[j..j + |sep|];
    assert OccursAt(rest, sep, j');
    SplitOnePart(rest, sep);
    SplitAt(s, sep, k);
  }

  /** Joining the parts of a split with the same separator gives back the string. */
  lemma {:induction false} SplitJoin(s: string, sep: string)
    requires sep != []
    ensures Join(Split(s, sep), sep) == s
    decreases |s|
  {
    var first := FirstOccurrence(s, sep, 0);
    if first.Some? {
      var i := first.value;
      var rest := s[i + |sep|..];
      SplitAt(s, sep, i);
      SplitJoin(rest, sep);
      JoinCons(s[..i], Split(rest, sep), sep);
      Around(s, i, i + |sep|);
    }
  }

  /** A string is the part before `i`, the part from `i` to `j`, and the rest. */
  lemma Around(s: string, i: nat, j: nat)
    requires i <= j <= |s|
    ensures s == s[..i] + s[i..j] + s[j..]
  {
  }

  lemma JoinCons(p: string, parts: seq<string>, sep: string)
    requires parts != []
    ensures Join([p] + parts, sep) == p + sep + Join(parts, sep)
  {
    assert ([p] + parts)[1..] == parts;
  }

  /** A prefix ending before the first occurrence of `sep` holds no occurrence. */
  lemma PrefixBeforeFirst(s: string, sep: string, i: nat)
    requires sep != [] && i <= |s|
    requires forall j :: 0 <= j < i ==> !OccursAt(s, sep, j)
    ensures !Contains(s[..i], sep)
  {
    forall j | 0 <= j <= |s[..i]| - |sep|
      ensures !OccursAt(s[..i], sep, j)
    {
      if OccursAt(s[..i], sep, j) {
        assert s[j..j + |sep|] == s[..i][j..j + |sep|];
        assert OccursAt(s, sep, j);
      }
    }
  }

  /** No part of a split contains the separator. */
  lemma {:induction false} SplitPartsFree(s: string, sep: string)
    requires sep != []
    ensures forall p :: p in Split(s, sep) ==> !Contains(p, sep)
    decreases |s|
  {
    FirstOccurrenceLeftmost(s, sep, 0);
    match FirstOccurrence(s, sep, 0)
    case None =>
    case Some(i) =>
      PrefixBeforeFirst(s, sep, i);
      SplitPartsFree(s[i + |sep|..], sep);
  }

  /** `c in s` is `[c]` occurring in `s`. */
  lemma ContainsChar(s: string, c: char)
    ensures Contains(s, [c]) <==> c in s
  {
    if c in s {
      var i :| 0 <= i < |s| && s[i] == c;
      assert OccursAt(s, [c], i);
    }
    if Contains(s, [c]) {
      var i :| 0 <= i <= |s| - 1 && OccursAt(s, [c], i);
      assert s[i] == s[i..i + 1][0];
    }
  }

  lemma {:induction false} CountCharAppend(a: string, b: string, c: char)
    ensures CountChar(a + b, c) == CountChar(a, c) + CountChar(b, c)
  {
    if a == [] {
      assert a + b == b;
    } else {
      assert (a + b)[1..] == a[1..] + b;
      CountCharAppend(a[1..], b, c);
    }
  }

  lemma {:induction false} CountCharAbsent(s: string, c: char)
    requires c !in s
    ensures CountChar(s, c) == 0
  {
    if s != [] {
      assert s[0] in s;
      CountCharAbsent(s[1..], c);
    }
  }

  /** Splitting on one character gives one more part than there are occurrences of it. */
  lemma {:induction false} SplitCharCount(s: string, c: char)
    ensures |Split(s, [c])| == 1 + CountChar(s, c)
    decreases |s|
  {
    FirstOccurrenceLeftmost(s, [c], 0);
    match FirstOccurrence(s, [c], 0)
    case None =>
      ContainsChar(s, c);
      CountCharAbsent(s, c);
    case Some(i) =>
      var rest := s[i + 1..];
      SplitCharCount(rest, c);
      PrefixBeforeFirst(s, [c], i);
      ContainsChar(s[..i], c);
      CountCharAbsent(s[..i], c);
      assert s[i] == s[i..i + 1][0];
      assert s == s[..i] + [c] + rest;
      CountCharAppend(s[..i] + [c], rest, c);
      CountCharAppend(s[..i], [c], c);
  }

  /** Cutting at a character that does not occur before it: the first part is
      what comes before, and the rest is split on. */
  lemma SplitCons(a: string, c: char, b: string)
    requires c !in a
    ensures Split(a + [c] + b, [c]) == [a] + Split(b, [c])
  {
    var key := a + [c] + b;
    assert OccursAt(key, [c], |a|) by {
      assert key[|a|..|a| + 1] == [c];
    }
    forall j | 0 <= j < |a| ensures !OccursAt(key, [c], j) {
      assert key[j..j + 1][0] == key[j] == a[j];
      assert a[j] in a;
    }
    FirstOccurrenceLeftmost(key, [c], 0);
    var first := FirstOccurrence(key, [c], 0);
    assert first.Some?;
    var k := first.value;
    assert k == |a|;
    SplitAt(key, [c], k);
    assert key[..|a|] == a && key[|a| + 1..] == b;
  }

  /** Splitting joined parts that do not contain the separator character gives
      the parts back. */
  lemma {:induction false} JoinSplit(parts: seq<string>, c: char)
    requires parts != []
    requires forall p :: p in parts ==> c !in p
    ensures Split(Join(parts, [c]), [c]) == parts
  {
    if |parts| == 1 {
      ContainsChar(parts[0], c);
      SplitOnePart(parts[0], [c]);
    } else {
      assert parts[0] in parts;
      assert forall p :: p in parts[1..] ==> p in parts;
      JoinSplit(parts[1..], c);
      SplitCons(parts[0], c, Join(parts[1..], [c]));
      assert parts == [parts[0]] + parts[1..];
    }
  }

  /** Python's `a < b` on strings: lexicographic order of code points, where a
      proper prefix comes first. */
  predicate LexLess(a: string, b: string)
  {
    if a == [] then b != []
    else if b == [] then false
    else a[0] < b[0] || (a[0] == b[0] && LexLess(a[1..], b[1..]))
  }

  /** Exactly one of `a < b`, `a == b`, `b < a` holds. */
  lemma {:induction false} LexTrichotomy(a: string, b: string)
    ensures LexLess(a, b) || a == b || LexLess(b, a)
    ensures !(LexLess(a, b) && a == b)
    ensures !(LexLess(a, b) && LexLess(b, a))
    ensures !(LexLess(b, a) && a == b)
  {
    if a != [] && b != [] {
      LexTrichotomy(a[1..], b[1..]);
      if a[0] == b[0] {
        assert a == [a[0]] + a[1..] && b == [b[0]] + b[1..];
      }
    }
  }

  /** `<` on strings is transitive. */
  lemma {:induction false} LexTransitive(a: string, b: string, c: string)
    requires LexLess(a, b) && LexLess(b, c)
    ensures LexLess(a, c)
  {
    if a != [] && a[0] == b[0] && b[0] == c[0] {
      LexTransitive(a[1..], b[1..], c[1..]);
    }
  }
}
