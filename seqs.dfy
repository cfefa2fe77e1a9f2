/** Order-preserving filtering of sequences: the reference meaning of
    "keep the elements that match, in their original order". */
module Seqs {

  /** The elements of `xs` that satisfy `p`, in their original order. */
  function Keep<T>(xs: seq<T>, p: T -> bool): seq<T>
  {
    if xs == [] then [] else (if p(xs[0]) then [xs[0]] else []) + Keep(xs[1..], p)
  }

  /** The conjunction of two predicates. */
  function And<T>(p: T -> bool, q: T -> bool): T -> bool
  {
    x => p(x) && q(x)
  }

  /** Exactly the elements of `xs` that satisfy `p` survive, and no new ones appear. */
  lemma {:induction false} KeepMembers<T>(xs: seq<T>, p: T -> bool)
    ensures |Keep(xs, p)| <= |xs|
    ensures forall x :: x in Keep(xs, p) ==> x in xs && p(x)
    ensures forall x :: x in xs && p(x) ==> x in Keep(xs, p)
  {
    if xs != [] {
      KeepMembers(xs[1..], p);
      assert forall x :: x in xs <==> x == xs[0] || x in xs[1..];
    }
  }

  /** Filtering distributes over concatenation. */
  lemma {:induction false} KeepAppend<T>(a: seq<T>, b: seq<T>, p: T -> bool)
    ensures Keep(a + b, p) == Keep(a, p) + Keep(b, p)
  {
    if a == [] {
      assert a + b == b;
    } else {
      var head := if p(a[0]) then [a[0]] else [];
      assert (a + b)[0] == a[0] && (a + b)[1..] == a[1..] + b;
      assert Keep(a + b, p) == head + Keep(a[1..] + b, p);
      KeepAppend(a[1..], b, p);
      assert Keep(a, p) == head + Keep(a[1..], p);
    }
  }

  /** When every element satisfies `p`, filtering changes nothing. */
  lemma {:induction false} KeepAll<T>(xs: seq<T>, p: T -> bool)
    requires forall x :: x in xs ==> p(x)
    ensures Keep(xs, p) == xs
  {
    if xs != [] {
      assert xs[0] in xs;
      KeepAll(xs[1..], p);
    }
  }

  /** When no element satisfies `p`, nothing survives. */
  lemma {:induction false} KeepNone<T>(xs: seq<T>, p: T -> bool)
    requires forall x :: x in xs ==> !p(x)
    ensures Keep(xs, p) == []
  {
    if xs != [] {
      assert xs[0] in xs;
      KeepNone(xs[1..], p);
    }
  }

  /** Filtering twice by the same predicate is filtering once. */
  lemma {:induction false} KeepIdempotent<T>(xs: seq<T>, p: T -> bool)
    ensures Keep(Keep(xs, p), p) == Keep(xs, p)
  {
    KeepMembers(xs, p);
    KeepAll(Keep(xs, p), p);
  }

  /** Filtering by `p` and then by `q` is filtering by both at once. */
  lemma {:induction false} KeepKeep<T>(xs: seq<T>, p: T -> bool, q: T -> bool)
    ensures Keep(Keep(xs, p), q) == Keep(xs, And(p, q))
  {
    if xs != [] {
      var head := if p(xs[0]) then [xs[0]] else [];
      assert Keep(xs, p) == head + Keep(xs[1..], p);
      KeepAppend(head, Keep(xs[1..], p), q);
      KeepKeep(xs[1..], p, q);
      if p(xs[0]) {
        assert Keep(head, q) == (if q(xs[0]) then [xs[0]] else []) + Keep([], q);
      }
      assert And(p, q)(xs[0]) == (p(xs[0]) && q(xs[0]));
    }
  }
}
